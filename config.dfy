/** The reader's configuration lookups (app/hx711_reader.py): `_env_bool` and
    the serial-port coercions `_coerce_bytesize`, `_coerce_parity` and
    `_coerce_stopbits`. The environment is passed in: `None` stands for an
    unset variable. */
module Config {
  import opened Wrappers
  import opened Ascii

  /** The form a setting is compared in: stripped and lower-cased. */
  function Normalised(v: string): string {
    LowerStr(Strip(v))
  }

  lemma LowerKeepsSpace(c: char)
    ensures IsSpace(Lower(c)) == IsSpace(c)
  {
  }

  /** Normalising twice is normalising once. */
  lemma NormalisedIdempotent(v: string)
    ensures Normalised(Normalised(v)) == Normalised(v)
  {
    var n := Normalised(v);
    var t := Strip(v);
    if n != [] {
      LowerKeepsSpace(t[0]);
      LowerKeepsSpace(t[|t| - 1]);
      assert RunEnd(n, 0, IsSpace) == 0;
      assert TrailingRun(n, IsSpace) == 0;
      assert n[0..][..|n| - 0] == n;
    }
    assert Strip(n) == n;
    assert LowerStr(n) == n;
  }

  const TrueWords: set<string> := {"1", "true", "yes", "on"}
  const FalseWords: set<string> := {"0", "false", "no", "off"}

  /** `_env_bool`: a recognised word decides, anything else keeps the default. */
  function EnvBool(value: Option<string>, default: bool): (r: bool)
  {
    if value.None? then default
    else
      var v := Normalised(value.value);
      if v in TrueWords then true
      else if v in FalseWords then false
      else default
  }

  /** The recognised words mean what they say, and nothing overrides the
      default except them. */
  lemma EnvBoolWords(value: string, default: bool)
    ensures Normalised(value) in TrueWords ==> EnvBool(Some(value), default)
    ensures Normalised(value) in FalseWords ==> !EnvBool(Some(value), default)
    ensures EnvBool(Some(value), default) != default ==> Normalised(value) in TrueWords + FalseWords
  {
  }

  /** A flag reads the same whatever its spacing and case. */
  lemma EnvBoolNormalises(value: string, default: bool)
    ensures EnvBool(Some(value), default) == EnvBool(Some(Normalised(value)), default)
  {
    NormalisedIdempotent(value);
  }

  function BoolName(b: bool): string {
    if b then "true" else "false"
  }

  /** A boolean written under its name and read back is itself. */
  lemma EnvBoolRoundTrip(b: bool, default: bool)
    ensures EnvBool(Some(BoolName(b)), default) == b
  {
    NormalFormFixed(BoolName(b));
  }

  /** `serial.FIVEBITS` .. `serial.EIGHTBITS` */
  datatype ByteSize = FiveBits | SixBits | SevenBits | EightBits

  /** `serial.PARITY_*` */
  datatype Parity = ParityNone | ParityEven | ParityOdd | ParityMark | ParitySpace

  /** `serial.STOPBITS_*` */
  datatype StopBits = StopOne | StopOnePointFive | StopTwo

  /** `_coerce_bytesize`: the stripped digit, or eight bits. */
  function CoerceBytesize(value: Option<string>): ByteSize {
    if value.None? || value.value == "" then EightBits
    else BytesizeOf(Strip(value.value))
  }

  /** The byte size a stripped setting names. */
  function BytesizeOf(v: string): ByteSize {
    if v == "5" then FiveBits
    else if v == "6" then SixBits
    else if v == "7" then SevenBits
    else EightBits
  }

  /** `_coerce_parity`: a letter or a word, in any case, or no parity. */
  function CoerceParity(value: Option<string>): Parity {
    if value.None? || value.value == "" then ParityNone
    else ParityOf(Normalised(value.value))
  }

  /** The parity a normalised setting names. */
  function ParityOf(v: string): Parity {
    if v == "e" || v == "even" then ParityEven
    else if v == "o" || v == "odd" then ParityOdd
    else if v == "m" || v == "mark" then ParityMark
    else if v == "s" || v == "space" then ParitySpace
    else ParityNone
  }

  /** `_coerce_stopbits`: one, one and a half or two, or one. */
  function CoerceStopbits(value: Option<string>): StopBits {
    if value.None? || value.value == "" then StopOne
    else StopbitsOf(Normalised(value.value))
  }

  /** The stop bits a normalised setting names. */
  function StopbitsOf(v: string): StopBits {
    if v == "1.5" || v == "1.5bits" then StopOnePointFive
    else if v == "2" then StopTwo
    else StopOne
  }

  function BytesizeName(b: ByteSize): string {
    match b
    case FiveBits => "5"
    case SixBits => "6"
    case SevenBits => "7"
    case EightBits => "8"
  }

  function ParityName(p: Parity): string {
    match p
    case ParityNone => "none"
    case ParityEven => "even"
    case ParityOdd => "odd"
    case ParityMark => "mark"
    case ParitySpace => "space"
  }

  function StopBitsName(s: StopBits): string {
    match s
    case StopOne => "1"
    case StopOnePointFive => "1.5"
    case StopTwo => "2"
  }

  /** A text with no outer space and no upper-case letter is its own normal form. */
  lemma NormalFormFixed(w: string)
    requires forall k :: 0 <= k < |w| ==> !IsSpace(w[k]) && !('A' <= w[k] <= 'Z')
    ensures Strip(w) == w && LowerStr(w) == w && Normalised(w) == w
  {
    assert RunEnd(w, 0, IsSpace) == 0;
    assert TrailingRun(w, IsSpace) == 0;
    assert w[0..][..|w| - 0] == w;
  }

  /** Every setting written under its name reads back as itself. */
  lemma BytesizeRoundTrip(b: ByteSize)
    ensures CoerceBytesize(Some(BytesizeName(b))) == b
  {
    NormalFormFixed(BytesizeName(b));
  }

  lemma ParityRoundTrip(p: Parity)
    ensures CoerceParity(Some(ParityName(p))) == p
  {
    ParityNameIsNormal(p);
    assert ParityOf(ParityName(p)) == p;
  }

  lemma ParityNameIsNormal(p: Parity)
    ensures ParityName(p) != "" && Normalised(ParityName(p)) == ParityName(p)
  {
    NormalFormFixed(ParityName(p));
  }

  lemma StopbitsRoundTrip(s: StopBits)
    ensures CoerceStopbits(Some(StopBitsName(s))) == s
  {
    NormalFormFixed(StopBitsName(s));
  }

  /** Settings are read the same whatever their spacing and case, and an
      empty or all-blank one gives the default. */
  lemma CoerceNormalises(v: string)
    ensures CoerceParity(Some(v)) == CoerceParity(Some(Normalised(v)))
    ensures CoerceStopbits(Some(v)) == CoerceStopbits(Some(Normalised(v)))
    ensures CoerceBytesize(Some(v)) == CoerceBytesize(Some(Strip(v)))
    ensures Strip(v) == "" ==>
      CoerceParity(Some(v)) == ParityNone && CoerceStopbits(Some(v)) == StopOne && CoerceBytesize(Some(v)) == EightBits
  {
    NormalisedIdempotent(v);
    StripIdempotent(v);
  }

  lemma StripIdempotent(v: string)
    ensures Strip(Strip(v)) == Strip(v)
  {
    var t := Strip(v);
    if t != [] {
      assert RunEnd(t, 0, IsSpace) == 0;
      assert TrailingRun(t, IsSpace) == 0;
      assert t[0..][..|t| - 0] == t;
    }
  }
}
