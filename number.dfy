/** The number pattern `[-+]?(?:\d+(?:\.\d+)?|\.\d+)` of the scale reader
    (app/hx711_reader.py:57), recognised by hand. A lexeme is an optional sign
    followed by a body: digits, digits with a fraction, or a bare fraction.
    Spans are written as index pairs `[i, e)` into the text so that no slice
    has to be taken. */
module Number {
  import opened Wrappers
  import opened Ascii

  predicate IsSign(c: char) {
    c == '-' || c == '+'
  }

  predicate IsDigitOrDot(c: char) {
    IsDigit(c) || c == '.'
  }

  /** `s[j..e]` is a body: only digits and dots, at most one dot, ending in a
      digit. These are exactly the strings `\d+(?:\.\d+)?|\.\d+` accepts. */
  predicate BodySpan(s: string, j: nat, e: nat) {
    j < e <= |s|
    && (forall k :: j <= k < e ==> IsDigitOrDot(s[k]))
    && IsDigit(s[e - 1])
    && (forall a, b :: j <= a < b < e && s[a] == '.' ==> s[b] != '.')
  }

  /** `s[i..e]` is a whole lexeme of the number pattern. */
  predicate LexemeSpan(s: string, i: nat, e: nat) {
    BodySpan(s, i, e) || (i < |s| && IsSign(s[i]) && BodySpan(s, i + 1, e))
  }

  /** Where the greedy body match that starts at `j` ends, if one starts there. */
  function BodyEnd(s: string, j: nat): Option<nat> {
    if j < |s| && IsDigit(s[j]) then
      var d := RunEnd(s, j, IsDigit);
      if d + 1 < |s| && s[d] == '.' && IsDigit(s[d + 1]) then Some(RunEnd(s, d + 1, IsDigit)) else Some(d)
    else if j + 1 < |s| && s[j] == '.' && IsDigit(s[j + 1]) then Some(RunEnd(s, j + 1, IsDigit))
    else None
  }

  /** Where the match of the number pattern anchored at `i` ends. A sign is
      taken when one is present; without it the body would have to start at
      the sign itself, which cannot happen, so this is the regex's answer. */
  function MatchEnd(s: string, i: nat): Option<nat> {
    if i < |s| && IsSign(s[i]) then BodyEnd(s, i + 1) else BodyEnd(s, i)
  }

  /** The greedy body match is the longest body at `j`, and there is one
      whenever any body starts at `j`. */
  lemma BodyEndLongest(s: string, j: nat)
    ensures BodyEnd(s, j).Some? ==> BodySpan(s, j, BodyEnd(s, j).value)
    ensures forall e: nat :: BodySpan(s, j, e) ==> BodyEnd(s, j).Some? && e <= BodyEnd(s, j).value
  {
    if j < |s| && IsDigit(s[j]) {
      DigitBodyLongest(s, j);
    } else if j + 1 < |s| && s[j] == '.' && IsDigit(s[j + 1]) {
      FractionBodyLongest(s, j);
    } else {
      forall e: nat ensures !BodySpan(s, j, e) {
        if j < e <= |s| && IsDigitOrDot(s[j]) && IsDigit(s[e - 1]) {
          assert s[j] == '.' && j + 1 < e;
          assert !IsDigitOrDot(s[j + 1]) || s[j + 1] == '.';
        }
      }
    }
  }

  /** A body that starts with a digit: the digits, then a fraction if one follows. */
  lemma DigitBodyLongest(s: string, j: nat)
    requires j < |s| && IsDigit(s[j])
    ensures BodyEnd(s, j).Some? && BodySpan(s, j, BodyEnd(s, j).value)
    ensures forall e: nat :: BodySpan(s, j, e) ==> e <= BodyEnd(s, j).value
  {
    var d := RunEnd(s, j, IsDigit);
    if d + 1 < |s| && s[d] == '.' && IsDigit(s[d + 1]) {
      var f := RunEnd(s, d + 1, IsDigit);
      assert BodySpan(s, j, f) by {
        forall a, b | j <= a < b < f && s[a] == '.' ensures s[b] != '.' {
          assert a == d;
        }
      }
    }
    forall e: nat | BodySpan(s, j, e) ensures e <= BodyEnd(s, j).value {
      if d < e {
        assert IsDigitOrDot(s[d]) && !IsDigit(s[d]);
        assert s[d] == '.' && d + 1 < e;
        assert IsDigitOrDot(s[d + 1]) && s[d + 1] != '.';
        assert forall k :: d + 1 <= k < e ==> s[k] != '.' && IsDigitOrDot(s[k]);
        RunEndCovers(s, d + 1, e, IsDigit);
      }
    }
  }

  /** A body that starts with a dot: the fraction's digits. */
  lemma FractionBodyLongest(s: string, j: nat)
    requires j + 1 < |s| && s[j] == '.' && IsDigit(s[j + 1])
    ensures BodyEnd(s, j).Some? && BodySpan(s, j, BodyEnd(s, j).value)
    ensures forall e: nat :: BodySpan(s, j, e) ==> e <= BodyEnd(s, j).value
  {
    forall e: nat | BodySpan(s, j, e) ensures e <= RunEnd(s, j + 1, IsDigit) {
      assert forall k :: j + 1 <= k < e ==> s[k] != '.' && IsDigitOrDot(s[k]);
      RunEndCovers(s, j + 1, e, IsDigit);
    }
  }

  /** The anchored matcher accepts exactly the lexemes of the pattern and
      returns the longest one: the greedy match is the leftmost-longest. */
  lemma MatchEndIsLongestLexeme(s: string, i: nat)
    ensures MatchEnd(s, i).Some? ==> LexemeSpan(s, i, MatchEnd(s, i).value)
    ensures forall e: nat :: LexemeSpan(s, i, e) ==> MatchEnd(s, i).Some? && e <= MatchEnd(s, i).value
  {
    if i < |s| && IsSign(s[i]) {
      BodyEndLongest(s, i + 1);
      forall e: nat ensures !BodySpan(s, i, e) {
        if i < e {
          assert !IsDigitOrDot(s[i]);
        }
      }
    } else {
      BodyEndLongest(s, i);
    }
  }

  /** The value of the decimal digits `s[a..b]`. */
  function DigitsValue(s: string, a: nat, b: nat): (v: nat)
    requires a <= b <= |s|
    decreases b - a
  {
    if a == b then 0
    else DigitsValue(s, a, b - 1) * 10 + (s[b - 1] as int - '0' as int) % 10
  }

  function Pow10(n: nat): (p: nat)
    ensures p >= 1
  {
    if n == 0 then 1 else 10 * Pow10(n - 1)
  }

  /** The position of the dot in a body, if it has one. */
  function DotIn(s: string, j: nat, e: nat): (r: Option<nat>)
    requires j <= e <= |s|
    ensures r.Some? ==> j <= r.value < e && s[r.value] == '.'
    ensures r.Some? ==> forall k :: j <= k < r.value ==> s[k] != '.'
    ensures r.None? ==> forall k :: j <= k < e ==> s[k] != '.'
    decreases e - j
  {
    if j == e then None else if s[j] == '.' then Some(j) else DotIn(s, j + 1, e)
  }

  /** `float()` of the body `s[j..e]`, as an exact decimal. */
  function BodyValue(s: string, j: nat, e: nat): real
    requires j <= e <= |s|
  {
    match DotIn(s, j, e)
    case None => DigitsValue(s, j, e) as real
    case Some(p) => DigitsValue(s, j, p) as real + DigitsValue(s, p + 1, e) as real / Pow10(e - p - 1) as real
  }

  /** `float()` of the lexeme `s[i..e]`. */
  function LexemeValue(s: string, i: nat, e: nat): real
    requires i < e <= |s|
  {
    if s[i] == '-' then -BodyValue(s, i + 1, e)
    else if s[i] == '+' then BodyValue(s, i + 1, e)
    else BodyValue(s, i, e)
  }

  /** A match of the number pattern: its span and the float it denotes. */
  datatype NumberMatch = NumberMatch(start: nat, end: nat, value: real)

  /** The match anchored at `i`, if any. */
  function NumberAt(s: string, i: nat): (r: Option<NumberMatch>)
    ensures r.Some? ==> r.value.start == i && LexemeSpan(s, i, r.value.end)
    ensures r.None? ==> forall e: nat :: !LexemeSpan(s, i, e)
  {
    MatchEndIsLongestLexeme(s, i);
    match MatchEnd(s, i)
    case None => None
    case Some(e) => Some(NumberMatch(i, e, LexemeValue(s, i, e)))
  }

  /** `_NUMBER_RE.search(s)`: the match at the leftmost position where one starts. */
  function Search(s: string): (r: Option<NumberMatch>)
    ensures r.Some? ==> r == NumberAt(s, r.value.start)
    ensures r.Some? ==> forall k :: 0 <= k < r.value.start ==> NumberAt(s, k).None?
    ensures r.None? ==> forall k :: 0 <= k <= |s| ==> NumberAt(s, k).None?
  {
    var at := k => NumberAt(s, k);
    assert forall k :: at(k) == NumberAt(s, k);
    match FirstSome(0, |s| + 1, at)
    case None => None
    case Some((_, m)) => Some(m)
  }

  /** A match found by `Search` is a lexeme and no lexeme starts further left. */
  lemma SearchIsLeftmostLongest(s: string)
    ensures Search(s).Some? ==> LexemeSpan(s, Search(s).value.start, Search(s).value.end)
    ensures Search(s).Some? ==> forall e: nat :: LexemeSpan(s, Search(s).value.start, e) ==> e <= Search(s).value.end
    ensures forall k: nat, e: nat :: LexemeSpan(s, k, e) ==> Search(s).Some? && Search(s).value.start <= k
  {
    if Search(s).Some? {
      MatchEndIsLongestLexeme(s, Search(s).value.start);
    }
    forall k: nat, e: nat | LexemeSpan(s, k, e) ensures Search(s).Some? && Search(s).value.start <= k {
      assert NumberAt(s, k).Some?;
    }
  }

  /** The decimal digits of `n`, most significant first. */
  function Digits(n: nat): (t: string)
    ensures |t| >= 1 && forall k :: 0 <= k < |t| ==> IsDigit(t[k])
  {
    if n < 10 then [('0' as int + n) as char] else Digits(n / 10) + [('0' as int + n % 10) as char]
  }

  /** Reading the digits of `n` back gives `n`. */
  lemma {:induction false} DigitsRoundTrip(n: nat)
    ensures DigitsValue(Digits(n), 0, |Digits(n)|) == n
  {
    var t := Digits(n);
    if n >= 10 {
      var u := Digits(n / 10);
      DigitsRoundTrip(n / 10);
      assert t[..|t| - 1] == u;
      DigitsValuePrefix(t, |u|);
    }
  }

  /** The digits value of a span only depends on the characters in it. */
  lemma {:induction false} DigitsValuePrefix(t: string, m: nat)
    requires m < |t|
    ensures DigitsValue(t, 0, m) == DigitsValue(t[..m], 0, m)
    decreases m
  {
    if m > 0 {
      DigitsValuePrefix(t, m - 1);
      DigitsValuePrefix(t[..m], m - 1);
      assert t[..m][..m - 1] == t[..m - 1];
    }
  }

  /** A number written out in digits is matched whole and read back exactly. */
  lemma NumberAtDigits(n: nat)
    ensures NumberAt(Digits(n), 0) == Some(NumberMatch(0, |Digits(n)|, n as real))
  {
    var t := Digits(n);
    RunEndExact(t, 0, |t|, IsDigit);
    assert DotIn(t, 0, |t|).None? by {
      assert !(exists k :: 0 <= k < |t| && t[k] == '.') by {
        forall k | 0 <= k < |t| ensures t[k] != '.' {
          assert IsDigit(t[k]);
        }
      }
    }
    DigitsRoundTrip(n);
  }
}
