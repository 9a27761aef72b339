/** Decoding one ASCII frame of the Brecknell B140 scale into a weight in
    grams, the counts that weight stands for and the device's stability hint
    (`_parse_line` and `_extract_grams` in app/hx711_reader.py). Every regular
    expression of the reader is written out as an anchored matcher plus the
    leftmost-position search that `re.search` performs. */
module Frame {
  import opened Wrappers
  import opened Ascii
  import Number
  import Util

  // ---------------------------------------------------------------- tokens

  /** The split class `[,\s]` of the line splitter. */
  predicate IsSeparator(c: char) {
    c == ',' || IsSpace(c)
  }

  predicate IsTokenChar(c: char) {
    !IsSeparator(c)
  }

  /** A token: a non-empty run of characters that are not separators. */
  predicate IsToken(t: string) {
    |t| > 0 && forall k :: 0 <= k < |t| ==> IsTokenChar(t[k])
  }

  /** `re.split(r"[,\s]+", text)` with each piece stripped and the empty
      pieces dropped: the maximal runs of non-separator characters, in order. */
  function Tokens(s: string): (ts: seq<string>)
    ensures forall k :: 0 <= k < |ts| ==> IsToken(ts[k])
    decreases |s|
  {
    if s == [] then []
    else if IsSeparator(s[0]) then Tokens(s[1..])
    else
      var e := RunEnd(s, 0, IsTokenChar);
      [s[..e]] + Tokens(s[e..])
  }

  /** Tokens written out with one separator between neighbours. */
  function Join(ts: seq<string>, sep: char): string
  {
    if |ts| == 0 then []
    else if |ts| == 1 then ts[0]
    else ts[0] + [sep] + Join(ts[1..], sep)
  }

  /** Splitting a frame written from tokens gives the tokens back. */
  lemma {:induction false} TokensOfJoin(ts: seq<string>, sep: char)
    requires IsSeparator(sep)
    requires forall k :: 0 <= k < |ts| ==> IsToken(ts[k])
    ensures Tokens(Join(ts, sep)) == ts
  {
    if ts != [] {
      var t := ts[0];
      var s := Join(ts, sep);
      assert s[..|t|] == t;
      assert |t| == |s| || s[|t|] == sep;
      RunEndExact(s, 0, |t|, IsTokenChar);
      if |ts| > 1 {
        var rest := [sep] + Join(ts[1..], sep);
        assert s[|t|..] == rest;
        assert rest[1..] == Join(ts[1..], sep);
        TokensOfJoin(ts[1..], sep);
        assert Tokens(rest) == ts[1..];
      } else {
        assert s[|t|..] == [];
      }
    }
  }

  /** A frame has no tokens exactly when it is all separators. */
  lemma {:induction false} TokensEmptyIffAllSeparators(s: string)
    ensures Tokens(s) == [] <==> forall k :: 0 <= k < |s| ==> IsSeparator(s[k])
    decreases |s|
  {
    if s != [] {
      TokensEmptyIffAllSeparators(s[1..]);
      if IsSeparator(s[0]) {
        assert forall k :: 1 <= k < |s| ==> s[k] == s[1..][k - 1];
      }
    }
  }

  // ------------------------------------------------------------ stability

  const UnstableMarkers: set<string> := {"US", "UN", "UNSTABLE"}
  const StableMarkers: set<string> := {"ST", "STABLE"}

  /** The device's stability hint: false when any token reads as unstable,
      otherwise true when any token reads as stable, otherwise none. */
  function StabilityHint(tokens: seq<string>): Option<bool> {
    if exists k :: 0 <= k < |tokens| && UpperStr(tokens[k]) in UnstableMarkers then Some(false)
    else if exists k :: 0 <= k < |tokens| && UpperStr(tokens[k]) in StableMarkers then Some(true)
    else None
  }

  /** The hint loop of `_parse_line`: a stable marker sets the hint, an
      unstable one sets it to false and ends the scan. */
  method ScanStabilityHint(tokens: seq<string>) returns (hint: Option<bool>)
    ensures hint == StabilityHint(tokens)
  {
    hint := None;
    var i := 0;
    while i < |tokens|
      invariant 0 <= i <= |tokens|
      invariant forall k :: 0 <= k < i ==> UpperStr(tokens[k]) !in UnstableMarkers
      invariant hint == if exists k :: 0 <= k < i && UpperStr(tokens[k]) in StableMarkers then Some(true) else None
    {
      var tok := UpperStr(tokens[i]);
      if tok in UnstableMarkers {
        hint := Some(false);
        return;
      }
      if tok in StableMarkers {
        hint := Some(true);
      }
      i := i + 1;
    }
  }

  // ---------------------------------------------------------------- units

  /** The factor `_apply_unit` multiplies by: the unit, lower-cased, starting
      with or naming kilograms, pounds or ounces; anything else is grams. */
  function UnitFactor(unit: string): (f: real)
    ensures f == 1000.0 || f == 453.59237 || f == 28.349523125 || f == 1.0
  {
    FactorOfLower(LowerStr(unit))
  }

  /** The decision `_apply_unit` takes on the lower-cased unit. */
  function FactorOfLower(lower: string): (f: real)
    ensures f == 1000.0 || f == 453.59237 || f == 28.349523125 || f == 1.0
  {
    if StartsWith(lower, "kg") || Contains(lower, "kilogram") then 1000.0
    else if StartsWith(lower, "lb") || Contains(lower, "pound") then 453.59237
    else if StartsWith(lower, "oz") || Contains(lower, "ounce") then 28.349523125
    else 1.0
  }

  /** The spellings of each unit that the unit patterns and the unit-token
      stage accept, in upper case. */
  const KilogramWords: set<string> := {"KG", "KGS", "KILOGRAM", "KILOGRAMS"}
  const PoundWords: set<string> := {"LB", "LBS", "POUND", "POUNDS"}
  const OunceWords: set<string> := {"OZ", "OZS", "OUNCE", "OUNCES"}
  const GramWords: set<string> := {"G", "GRAM", "GRAMS"}

  /** The tokens stage 3 takes for a unit. */
  const UnitTokens: set<string> :=
    {"KG", "KGS", "KILOGRAM", "KILOGRAMS", "LB", "LBS", "POUND", "POUNDS", "OZ", "OZS",
     "OUNCE", "OUNCES", "G", "GRAM", "GRAMS"}

  /** The unit tokens are exactly the spellings of the four units. */
  lemma UnitTokensAreUnitWords()
    ensures UnitTokens == KilogramWords + PoundWords + OunceWords + GramWords
  {
  }

  lemma KilogramFactors()
    ensures FactorOfLower("kg") == 1000.0 && FactorOfLower("kgs") == 1000.0
    ensures FactorOfLower("kilogram") == 1000.0 && FactorOfLower("kilograms") == 1000.0
  {
    assert StartsWith("kg", "kg") && StartsWith("kgs", "kg");
    ContainsAtStart("kilogram", "kilogram");
    ContainsAtStart("kilograms", "kilogram");
  }

  lemma PoundFactors()
    ensures FactorOfLower("lb") == 453.59237 && FactorOfLower("lbs") == 453.59237
    ensures FactorOfLower("pound") == 453.59237 && FactorOfLower("pounds") == 453.59237
  {
    assert StartsWith("lb", "lb") && StartsWith("lbs", "lb");
    NotStartsWith("lb", "kg"); NotStartsWith("lbs", "kg");
    NotStartsWith("pound", "kg"); NotStartsWith("pounds", "kg");
    NotContains("lb", "kilogram"); NotContains("lbs", "kilogram");
    NotContains("pound", "kilogram"); NotContains("pounds", "kilogram");
    ContainsAtStart("pound", "pound"); ContainsAtStart("pounds", "pound");
  }

  lemma OunceFactors()
    ensures FactorOfLower("oz") == 28.349523125 && FactorOfLower("ozs") == 28.349523125
    ensures FactorOfLower("ounce") == 28.349523125 && FactorOfLower("ounces") == 28.349523125
  {
    assert StartsWith("oz", "oz") && StartsWith("ozs", "oz");
    NotStartsWith("oz", "kg"); NotStartsWith("ozs", "kg");
    NotStartsWith("oz", "lb"); NotStartsWith("ozs", "lb");
    NotStartsWith("ounce", "kg"); NotStartsWith("ounces", "kg");
    NotStartsWith("ounce", "lb"); NotStartsWith("ounces", "lb");
    NotContains("oz", "kilogram"); NotContains("ozs", "kilogram");
    NotContains("ounce", "kilogram"); NotContains("ounces", "kilogram");
    NotContains("oz", "pound"); NotContains("ozs", "pound");
    NotContains("ounce", "pound"); NotContains("ounces", "pound");
    ContainsAtStart("ounce", "ounce"); ContainsAtStart("ounces", "ounce");
  }

  lemma GramFactors()
    ensures FactorOfLower("g") == 1.0 && FactorOfLower("gram") == 1.0 && FactorOfLower("grams") == 1.0
  {
    NotContains("g", "kilogram"); NotContains("gram", "kilogram"); NotContains("grams", "kilogram");
    NotContains("g", "pound"); NotContains("gram", "pound"); NotContains("grams", "pound");
    NotContains("g", "ounce"); NotContains("gram", "ounce"); NotContains("grams", "ounce");
    NotStartsWith("g", "kg"); NotStartsWith("gram", "kg"); NotStartsWith("grams", "kg");
    NotStartsWith("g", "lb"); NotStartsWith("gram", "lb"); NotStartsWith("grams", "lb");
    NotStartsWith("g", "oz"); NotStartsWith("gram", "oz"); NotStartsWith("grams", "oz");
  }

  lemma LowerKilogramWords()
    ensures LowerStr("KG") == "kg" && LowerStr("KGS") == "kgs"
    ensures LowerStr("KILOGRAM") == "kilogram" && LowerStr("KILOGRAMS") == "kilograms"
  {
  }

  lemma LowerPoundWords()
    ensures LowerStr("LB") == "lb" && LowerStr("LBS") == "lbs"
    ensures LowerStr("POUND") == "pound" && LowerStr("POUNDS") == "pounds"
  {
  }

  lemma LowerOunceWords()
    ensures LowerStr("OZ") == "oz" && LowerStr("OZS") == "ozs"
    ensures LowerStr("OUNCE") == "ounce" && LowerStr("OUNCES") == "ounces"
  {
  }

  lemma LowerGramWords()
    ensures LowerStr("G") == "g" && LowerStr("GRAM") == "gram" && LowerStr("GRAMS") == "grams"
  {
  }

  /** The conversion table: a unit written, in any case, as a spelling of
      kilograms, pounds, ounces or grams converts by 1000, 453.59237,
      28.349523125 or 1. */
  lemma UnitFactorTable(unit: string)
    ensures UpperStr(unit) in KilogramWords ==> UnitFactor(unit) == 1000.0
    ensures UpperStr(unit) in PoundWords ==> UnitFactor(unit) == 453.59237
    ensures UpperStr(unit) in OunceWords ==> UnitFactor(unit) == 28.349523125
    ensures UpperStr(unit) in GramWords ==> UnitFactor(unit) == 1.0
  {
    var w := UpperStr(unit);
    if w in KilogramWords {
      KilogramUnit(unit);
    } else if w in PoundWords {
      PoundUnit(unit);
    } else if w in OunceWords {
      OunceUnit(unit);
    } else if w in GramWords {
      GramUnit(unit);
    }
  }

  lemma KilogramUnit(unit: string)
    requires UpperStr(unit) in KilogramWords
    ensures UnitFactor(unit) == 1000.0
  {
    UnitFactorIgnoresCase(unit);
    KilogramWord(UpperStr(unit));
  }

  lemma KilogramWord(w: string)
    requires w in KilogramWords
    ensures FactorOfLower(LowerStr(w)) == 1000.0
  {
    KilogramLower(w);
    KilogramFactors();
  }

  lemma KilogramLower(w: string)
    requires w in KilogramWords
    ensures LowerStr(w) in {"kg", "kgs", "kilogram", "kilograms"}
  {
    LowerKilogramWords();
  }

  lemma PoundUnit(unit: string)
    requires UpperStr(unit) in PoundWords
    ensures UnitFactor(unit) == 453.59237
  {
    UnitFactorIgnoresCase(unit);
    PoundWord(UpperStr(unit));
  }

  lemma PoundWord(w: string)
    requires w in PoundWords
    ensures FactorOfLower(LowerStr(w)) == 453.59237
  {
    PoundLower(w);
    PoundFactors();
  }

  lemma PoundLower(w: string)
    requires w in PoundWords
    ensures LowerStr(w) in {"lb", "lbs", "pound", "pounds"}
  {
    LowerPoundWords();
  }

  lemma OunceUnit(unit: string)
    requires UpperStr(unit) in OunceWords
    ensures UnitFactor(unit) == 28.349523125
  {
    UnitFactorIgnoresCase(unit);
    OunceWord(UpperStr(unit));
  }

  lemma OunceWord(w: string)
    requires w in OunceWords
    ensures FactorOfLower(LowerStr(w)) == 28.349523125
  {
    OunceLower(w);
    OunceFactors();
  }

  lemma OunceLower(w: string)
    requires w in OunceWords
    ensures LowerStr(w) in {"oz", "ozs", "ounce", "ounces"}
  {
    LowerOunceWords();
  }

  lemma GramUnit(unit: string)
    requires UpperStr(unit) in GramWords
    ensures UnitFactor(unit) == 1.0
  {
    UnitFactorIgnoresCase(unit);
    GramWord(UpperStr(unit));
  }

  lemma GramWord(w: string)
    requires w in GramWords
    ensures FactorOfLower(LowerStr(w)) == 1.0
  {
    GramLower(w);
    GramFactors();
  }

  lemma GramLower(w: string)
    requires w in GramWords
    ensures LowerStr(w) in {"g", "gram", "grams"}
  {
    LowerGramWords();
  }

  /** The units of the embedded-unit stage convert as their names say. */
  lemma EmbeddedUnitFactors()
    ensures UnitFactor("kg") == 1000.0 && UnitFactor("kilogram") == 1000.0
    ensures UnitFactor("lb") == 453.59237 && UnitFactor("pound") == 453.59237
    ensures UnitFactor("oz") == 28.349523125 && UnitFactor("ounce") == 28.349523125
    ensures UnitFactor("g") == 1.0 && UnitFactor("gram") == 1.0
  {
    assert LowerStr("kg") == "kg" && LowerStr("kilogram") == "kilogram";
    assert LowerStr("lb") == "lb" && LowerStr("pound") == "pound";
    assert LowerStr("oz") == "oz" && LowerStr("ounce") == "ounce";
    assert LowerStr("g") == "g" && LowerStr("gram") == "gram";
    KilogramFactors();
    PoundFactors();
    OunceFactors();
    GramFactors();
  }

  /** `_apply_unit` */
  function ApplyUnit(value: real, unit: string): real {
    value * UnitFactor(unit)
  }

  lemma LowerOfUpper(s: string)
    ensures LowerStr(UpperStr(s)) == LowerStr(s)
  {
    forall k | 0 <= k < |s| ensures Lower(Upper(s[k])) == Lower(s[k]) {
      if 'a' <= s[k] <= 'z' {
        assert 'A' <= Upper(s[k]) <= 'Z';
      }
    }
  }

  /** The conversion ignores the case of the unit. */
  lemma UnitFactorIgnoresCase(unit: string)
    ensures UnitFactor(unit) == UnitFactor(UpperStr(unit))
  {
    LowerOfUpper(unit);
  }

  /** The capture of the unit group `KG|KGS?|KILOGRAMS?|LB|LBS?|POUNDS?|OZ|OZS?|OUNCES?|G|GRAMS?`,
      each optional letter written out greedy-first; the first alternative
      that matches wins, since nothing follows the group in either pattern. */
  const UnitAlternatives: seq<string> :=
    ["KG", "KGS", "KG", "KILOGRAMS", "KILOGRAM", "LB", "LBS", "LB", "POUNDS", "POUND",
     "OZ", "OZS", "OZ", "OUNCES", "OUNCE", "G", "GRAMS", "GRAM"]

  /** The unit text the unit group captures at `i`, if it matches there. */
  function UnitAt(s: string, i: nat): (r: Option<string>)
    ensures r.Some? ==> exists a :: 0 <= a < |UnitAlternatives| && MatchesAt(s, i, UnitAlternatives[a])
                                  && r.value == s[i..i + |UnitAlternatives[a]|]
    ensures r.None? ==> forall a :: 0 <= a < |UnitAlternatives| ==> !MatchesAt(s, i, UnitAlternatives[a])
  {
    var at := (w: string) => if MatchesAt(s, i, w) then Some(|w|) else None;
    assert forall a :: 0 <= a < |UnitAlternatives| ==> (at(UnitAlternatives[a]).Some? <==> MatchesAt(s, i, UnitAlternatives[a]));
    match FirstMapped(UnitAlternatives, at, 0)
    case None => None
    case Some((a, n)) => Some(s[i..i + n])
  }

  // ------------------------------------------------------- number and unit

  /** Every alternative of the unit group spells one of the unit tokens. */
  lemma UnitAlternativesAreUnitWords()
    ensures forall a :: 0 <= a < |UnitAlternatives| ==> UnitAlternatives[a] in UnitTokens
  {
  }

  /** The unit a pattern captures is, up to case, one of the unit tokens, so
      it converts as the conversion table says. */
  lemma CapturedUnitIsUnitWord(s: string, i: nat)
    ensures UnitAt(s, i).Some? ==> UpperStr(UnitAt(s, i).value) in UnitTokens
  {
    var r := UnitAt(s, i);
    if r.Some? {
      var a :| 0 <= a < |UnitAlternatives| && MatchesAt(s, i, UnitAlternatives[a])
               && r.value == s[i..i + |UnitAlternatives[a]|];
      var w := UnitAlternatives[a];
      assert UpperStr(r.value) == w by {
        forall k | 0 <= k < |w| ensures UpperStr(r.value)[k] == w[k] {
          assert r.value[k] == s[i + k];
        }
      }
      UnitAlternativesAreUnitWords();
    }
  }

  /** `_NUMBER_WITH_UNIT_RE` anchored at `i`: the number, optional
      whitespace, a unit. A shorter number than the greedy one is followed by
      a digit or a dot, which cannot start a unit, so only the greedy number
      needs trying. */
  function NumberWithUnitAt(s: string, i: nat): Option<(real, string)> {
    match Number.NumberAt(s, i)
    case None => None
    case Some(m) =>
      var w := RunEnd(s, m.end, IsSpace);
      match UnitAt(s, w)
      case None => None
      case Some(u) => Some((m.value, u))
  }

  /** `_NUMBER_WITH_UNIT_RE.search(text)`: value and unit text of the leftmost match. */
  function NumberWithUnitSearch(s: string): (r: Option<(real, string)>)
    ensures r.Some? ==> exists i :: 0 <= i <= |s| && NumberWithUnitAt(s, i) == r
                                    && forall k :: 0 <= k < i ==> NumberWithUnitAt(s, k).None?
    ensures r.None? ==> forall k :: 0 <= k <= |s| ==> NumberWithUnitAt(s, k).None?
  {
    var at := k => NumberWithUnitAt(s, k);
    assert forall k :: at(k) == NumberWithUnitAt(s, k);
    match FirstSome(0, |s| + 1, at)
    case None => None
    case Some((i, x)) => Some(x)
  }

  // ------------------------------------------------------------- net line

  /** The regex `\b` at position `i`: a word character on exactly one side. */
  predicate Boundary(s: string, i: nat) {
    (0 < i <= |s| && IsWordChar(s[i - 1])) != (i < |s| && IsWordChar(s[i]))
  }

  /** The class `[:=\s]` between the label and the value of a net line. */
  predicate IsFiller(c: char) {
    c == ':' || c == '=' || IsSpace(c)
  }

  /** What follows the label of `_NET_VALUE_RE` from `p`:
      `\b[:=\s]*(number)(?:\s*(unit))?`. Filler that stops early leaves a
      filler character, which cannot start a number, so the greedy run is
      the only one to try; the unit group is optional and taken when it matches. */
  function NetTail(s: string, p: nat): Option<(real, Option<string>)>
    requires p <= |s|
  {
    if !Boundary(s, p) then None
    else
      var q := RunEnd(s, p, IsFiller);
      match Number.NumberAt(s, q)
      case None => None
      case Some(m) =>
        var u := RunEnd(s, m.end, IsSpace);
        Some((m.value, UnitAt(s, u)))
  }

  /** `_NET_VALUE_RE` anchored at `i`: `\bNET`, then the optional
      `\s+WEIGHT` (tried first, as the greedy `?` does), then the tail. */
  function NetAt(s: string, i: nat): Option<(real, Option<string>)> {
    if !(Boundary(s, i) && MatchesAt(s, i, "NET")) then None
    else
      var p := i + 3;
      var w := RunEnd(s, p, IsSpace);
      var weighted := if w > p && MatchesAt(s, w, "WEIGHT") then NetTail(s, w + 6) else None;
      if weighted.Some? then weighted else NetTail(s, p)
  }

  /** `_NET_VALUE_RE.search(text)` */
  function NetSearch(s: string): (r: Option<(real, Option<string>)>)
    ensures r.Some? ==> exists i :: 0 <= i <= |s| && NetAt(s, i) == r
                                    && forall k :: 0 <= k < i ==> NetAt(s, k).None?
    ensures r.None? ==> forall k :: 0 <= k <= |s| ==> NetAt(s, k).None?
  {
    var at := k => NetAt(s, k);
    assert forall k :: at(k) == NetAt(s, k);
    match FirstSome(0, |s| + 1, at)
    case None => None
    case Some((i, x)) => Some(x)
  }

  const VerboseFields: seq<string> :=
    ["DATE", "TIME", "GROSS", "TARE", "MERCHANDISE", "PIECE", "TOTAL", "COUNT", "ITEM"]

  /** `_VERBOSE_FIELD_RE.search(text)` succeeds: a ticket field name stands
      as a whole word somewhere in the frame, in any case. */
  predicate HasVerboseField(s: string) {
    exists i, a :: 0 <= i <= |s| && 0 <= a < |VerboseFields|
      && Boundary(s, i) && MatchesAt(s, i, VerboseFields[a]) && Boundary(s, i + |VerboseFields[a]|)
  }

  // ------------------------------------------------------- token stages

  const EmbeddedUnits: seq<string> := ["kg", "kilogram", "lb", "pound", "oz", "ounce", "g", "gram"]

  /** One unit of the embedded-unit stage on one token: the number is looked
      for before the unit, or after it when the unit opens the token. */
  function EmbeddedValue(token: string, unit: string): (r: Option<real>)
    ensures r.Some? ==> Contains(LowerStr(token), unit)
    ensures r.Some? ==> exists i :: 0 <= i && i + |unit| <= |token| && OccursAt(LowerStr(token), unit, i)
                          && (forall j :: 0 <= j < i ==> !OccursAt(LowerStr(token), unit, j))
                          && var part := if i > 0 then token[..i] else token[i + |unit|..];
                             Number.Search(part).Some? && r.value == ApplyUnit(Number.Search(part).value.value, unit)
  {
    match Find(LowerStr(token), unit, 0)
    case None => None
    case Some(idx) =>
      var part := if idx > 0 then token[..idx] else token[idx + |unit|..];
      match Number.Search(part)
      case None => None
      case Some(m) => Some(ApplyUnit(m.value, unit))
  }

  /** The embedded-unit stage on one token: the units in their listed order. */
  function EmbeddedInToken(token: string): (r: Option<real>)
    ensures r.Some? ==> exists a :: 0 <= a < |EmbeddedUnits| && EmbeddedValue(token, EmbeddedUnits[a]) == r
                          && forall b :: 0 <= b < a ==> EmbeddedValue(token, EmbeddedUnits[b]).None?
    ensures r.None? ==> forall a :: 0 <= a < |EmbeddedUnits| ==> EmbeddedValue(token, EmbeddedUnits[a]).None?
  {
    match FirstMapped(EmbeddedUnits, (u: string) => EmbeddedValue(token, u), 0)
    case None => None
    case Some((_, g)) => Some(g)
  }

  /** Stage 2: the first token with a number next to an embedded unit. */
  function EmbeddedStage(tokens: seq<string>): (r: Option<real>)
    ensures r.Some? ==> exists k :: 0 <= k < |tokens| && EmbeddedInToken(tokens[k]) == r
                          && forall j :: 0 <= j < k ==> EmbeddedInToken(tokens[j]).None?
    ensures r.None? ==> forall k :: 0 <= k < |tokens| ==> EmbeddedInToken(tokens[k]).None?
  {
    match FirstMapped(tokens, EmbeddedInToken, 0)
    case None => None
    case Some((_, g)) => Some(g)
  }

  /** Stage 3 at token `idx`: a unit token converts the number of the token
      before it, or failing that of the token after it. */
  function NeighbourValue(tokens: seq<string>, idx: nat): (r: Option<real>)
    ensures r.Some? ==> idx < |tokens| && UpperStr(tokens[idx]) in UnitTokens
    ensures idx < |tokens| && UpperStr(tokens[idx]) in UnitTokens && idx > 0 && Number.Search(tokens[idx - 1]).Some? ==>
      r == Some(ApplyUnit(Number.Search(tokens[idx - 1]).value.value, tokens[idx]))
    ensures r.Some? && (idx == 0 || Number.Search(tokens[idx - 1]).None?) ==>
      idx + 1 < |tokens| && Number.Search(tokens[idx + 1]).Some?
      && r == Some(ApplyUnit(Number.Search(tokens[idx + 1]).value.value, tokens[idx]))
    ensures r.None? && idx < |tokens| && UpperStr(tokens[idx]) in UnitTokens ==>
      (idx == 0 || Number.Search(tokens[idx - 1]).None?) && (idx + 1 >= |tokens| || Number.Search(tokens[idx + 1]).None?)
  {
    if idx >= |tokens| || UpperStr(tokens[idx]) !in UnitTokens then None
    else
      var prev := if idx > 0 then Number.Search(tokens[idx - 1]) else None;
      var next := if idx + 1 < |tokens| then Number.Search(tokens[idx + 1]) else None;
      if prev.Some? then Some(ApplyUnit(prev.value.value, tokens[idx]))
      else if next.Some? then Some(ApplyUnit(next.value.value, tokens[idx]))
      else None
  }

  /** Stage 3: the first unit token with a numeric neighbour. */
  function NeighbourStage(tokens: seq<string>): (r: Option<real>)
    ensures r.Some? ==> exists k :: 0 <= k < |tokens| && NeighbourValue(tokens, k) == r
                          && forall j :: 0 <= j < k ==> NeighbourValue(tokens, j).None?
    ensures r.None? ==> forall k :: 0 <= k < |tokens| ==> NeighbourValue(tokens, k).None?
  {
    var at := k => NeighbourValue(tokens, k);
    assert forall k :: at(k) == NeighbourValue(tokens, k);
    match FirstSome(0, |tokens|, at)
    case None => None
    case Some((_, g)) => Some(g)
  }

  /** A token's first number, if its magnitude is at most a million. */
  function PlausibleValue(token: string): Option<real> {
    match Number.Search(token)
    case None => None
    case Some(m) => if Util.Abs(m.value) > 1000000.0 then None else Some(m.value)
  }

  /** Stage 4: the first token whose first number is a plausible weight. */
  function PlausibleStage(tokens: seq<string>): (r: Option<real>)
    ensures r.Some? ==> Util.Abs(r.value) <= 1000000.0
    ensures r.Some? ==> exists k :: 0 <= k < |tokens| && Number.Search(tokens[k]).Some?
                          && Number.Search(tokens[k]).value.value == r.value
                          && forall j :: 0 <= j < k ==> PlausibleValue(tokens[j]).None?
    ensures r.None? ==> forall k :: 0 <= k < |tokens| ==>
                          Number.Search(tokens[k]).None? || Util.Abs(Number.Search(tokens[k]).value.value) > 1000000.0
  {
    match FirstMapped(tokens, PlausibleValue, 0)
    case None => None
    case Some((k, v)) => Some(v)
  }

  // ------------------------------------------------------------- cascade

  /** `_extract_grams`: a net line wins (in kilograms when it names no unit);
      other ticket lines give nothing; then the number-and-unit pair, the
      embedded unit, the unit token's neighbour and the first plausible
      number, in that order. */
  function ExtractGrams(text: string, tokens: seq<string>): Option<real> {
    match NetSearch(text)
    case Some((value, unit)) => Some(ApplyUnit(value, if unit.Some? then unit.value else "kg"))
    case None =>
      if HasVerboseField(text) then None
      else match NumberWithUnitSearch(text)
        case Some((value, unit)) => Some(ApplyUnit(value, unit))
        case None =>
          if EmbeddedStage(tokens).Some? then EmbeddedStage(tokens)
          else if NeighbourStage(tokens).Some? then NeighbourStage(tokens)
          else PlausibleStage(tokens)
  }

  /** The order of the cascade: a net value decides alone, a ticket field
      without one rejects the frame, and a number-and-unit pair comes before
      every token stage. */
  lemma ExtractGramsPriority(text: string, tokens: seq<string>)
    ensures NetSearch(text).Some? ==>
      ExtractGrams(text, tokens) == Some(ApplyUnit(NetSearch(text).value.0,
        if NetSearch(text).value.1.Some? then NetSearch(text).value.1.value else "kg"))
    ensures NetSearch(text).None? && HasVerboseField(text) ==> ExtractGrams(text, tokens).None?
    ensures NetSearch(text).None? && !HasVerboseField(text) && NumberWithUnitSearch(text).Some? ==>
      ExtractGrams(text, tokens) == Some(ApplyUnit(NumberWithUnitSearch(text).value.0, NumberWithUnitSearch(text).value.1))
    ensures (NetSearch(text).None? && !HasVerboseField(text) && NumberWithUnitSearch(text).None?
             && EmbeddedStage(tokens).Some?) ==> ExtractGrams(text, tokens) == EmbeddedStage(tokens)
    ensures (NetSearch(text).None? && !HasVerboseField(text) && NumberWithUnitSearch(text).None?
             && EmbeddedStage(tokens).None? && NeighbourStage(tokens).Some?) ==> ExtractGrams(text, tokens) == NeighbourStage(tokens)
  {
  }

  /** A net line that names no unit is read in kilograms. */
  lemma NetWithoutUnitIsKilograms(text: string, tokens: seq<string>, value: real)
    requires NetSearch(text) == Some((value, None))
    ensures ExtractGrams(text, tokens) == Some(value * 1000.0)
  {
    var r := ExtractGrams(text, tokens);
    NetDefaultUnit(text, tokens, value);
    KilogramResult(r, value);
  }

  lemma KilogramResult(r: Option<real>, value: real)
    requires r == Some(ApplyUnit(value, "kg"))
    ensures r == Some(value * 1000.0)
  {
    KilogramFactor(value);
  }

  lemma NetDefaultUnit(text: string, tokens: seq<string>, value: real)
    requires NetSearch(text) == Some((value, None))
    ensures ExtractGrams(text, tokens) == Some(ApplyUnit(value, "kg"))
  {
  }

  lemma KilogramFactor(value: real)
    ensures ApplyUnit(value, "kg") == value * 1000.0
  {
    assert LowerStr("kg") == "kg";
    assert StartsWith("kg", "kg");
  }

  /** When no earlier stage yields a value, the weight is the first plausible
      number of the tokens. */
  lemma FallbackIsFirstPlausible(text: string, tokens: seq<string>)
    requires NetSearch(text).None? && !HasVerboseField(text) && NumberWithUnitSearch(text).None?
    requires EmbeddedStage(tokens).None? && NeighbourStage(tokens).None?
    ensures ExtractGrams(text, tokens) == PlausibleStage(tokens)
  {
  }

  // ------------------------------------------------------------ the frame

  /** Python's `round()` to an integer: the nearest integer, ties to even. */
  function RoundHalfEven(x: real): (n: int)
    ensures x - 0.5 <= n as real <= x + 0.5
    ensures (n as real == x - 0.5 || n as real == x + 0.5) ==> n % 2 == 0
  {
    var f := x.Floor;
    var d := x - f as real;
    if d < 0.5 then f
    else if d > 0.5 then f + 1
    else if f % 2 == 0 then f else f + 1
  }

  /** A decoded frame: grams, the counts they stand for, and the device's hint. */
  datatype Parsed = Parsed(grams: real, rawCounts: int, stableHint: Option<bool>)

  /** A weight together with the counts it stands for at the native
      resolution, rounded as Python's `round()` rounds. */
  function Reading(grams: real, nativeCountsPerGram: real, hint: Option<bool>): (p: Parsed)
    ensures p.grams == grams && p.stableHint == hint
    ensures -0.5 <= p.rawCounts as real - grams * nativeCountsPerGram <= 0.5
  {
    var counts := grams * nativeCountsPerGram;
    Parsed(grams, RoundHalfEven(counts), hint)
  }

  /** `_parse_line` */
  function ParseLine(text: string, nativeCountsPerGram: real): (r: Option<Parsed>)
    ensures r.Some? ==> r.value == Reading(r.value.grams, nativeCountsPerGram, r.value.stableHint)
  {
    var tokens := Tokens(text);
    if tokens == [] then None
    else
      match ExtractGrams(text, tokens)
      case None => None
      case Some(grams) => Some(Reading(grams, nativeCountsPerGram, StabilityHint(tokens)))
  }

  /** A frame with no tokens, or whose cascade finds no weight, parses to
      nothing; otherwise to the cascade's weight with the tokens' hint. */
  lemma ParseLineStages(text: string, nativeCountsPerGram: real)
    ensures Tokens(text) == [] ==> ParseLine(text, nativeCountsPerGram).None?
    ensures Tokens(text) != [] ==>
              (ParseLine(text, nativeCountsPerGram).Some? <==> ExtractGrams(text, Tokens(text)).Some?)
    ensures ParseLine(text, nativeCountsPerGram).Some? ==>
              ParseLine(text, nativeCountsPerGram).value.grams == ExtractGrams(text, Tokens(text)).value
              && ParseLine(text, nativeCountsPerGram).value.stableHint == StabilityHint(Tokens(text))
  {
  }
}
