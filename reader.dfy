/** The scale reader of app/hx711_reader.py: calibration, the per-sample
    update (window, median, exponential moving average, stability), the
    diagnostic log, the freshness check on the last counts, the idle-event
    throttle, the handling of one frame and the reconnect backoff of the read
    loop. Clock readings are passed in as `now`; the serial port, the thread
    and the locks are not part of this model. */
module Reader {
  import opened Wrappers
  import opened Ascii
  import Util
  import Deque
  import Frame

  /** The magnitude below which a scale factor counts as zero. */
  const Epsilon: real := 0.000000001

  /** The capacity of the diagnostic log. */
  const LogCapacity: nat := 2000

  function Max(a: int, b: int): int {
    if a >= b then a else b
  }

  function MaxReal(a: real, b: real): real {
    if a >= b then a else b
  }

  // ----------------------------------------------------------- calibration

  /** What `get_calibration` reports: the zero offset in counts, a positive
      factor in counts per gram and the sign the factor had. */
  datatype Calibration = Calibration(zeroOffset: int, scaleFactor: real, scaleSign: int)

  /** `set_calibration`: the factor is kept as a magnitude and a sign; a
      factor too close to zero is replaced by one. */
  function Normalise(zeroOffset: int, scaleFactor: real): (c: Calibration)
    ensures c.zeroOffset == zeroOffset
    ensures c.scaleFactor > 0.0
    ensures c.scaleSign == -1 <==> scaleFactor < 0.0
    ensures c.scaleSign == 1 || c.scaleSign == -1
    ensures Util.Abs(scaleFactor) > Epsilon ==> c.scaleSign as real * c.scaleFactor == scaleFactor
    ensures Util.Abs(scaleFactor) <= Epsilon ==> c.scaleFactor == 1.0
  {
    Calibration(zeroOffset,
                if Util.Abs(scaleFactor) > Epsilon then Util.Abs(scaleFactor) else 1.0,
                if scaleFactor >= 0.0 then 1 else -1)
  }

  /** The conversion of counts to grams in `_update`. */
  function ToGrams(c: Calibration, rawCounts: int): real
    requires c.scaleFactor != 0.0
  {
    c.scaleSign as real * (rawCounts - c.zeroOffset) as real / c.scaleFactor
  }

  /** The zero offset reads as zero grams. */
  lemma ToGramsAtZero(c: Calibration)
    requires c.scaleFactor != 0.0
    ensures ToGrams(c, c.zeroOffset) == 0.0
  {
  }

  /** Calibrating with the counts a known mass produces makes those counts
      read as that mass, unless the factor is so small it is replaced. */
  lemma {:induction false} CalibrationRoundTrip(zeroOffset: int, rawCounts: int, knownG: real)
    requires knownG > 0.0
    requires Util.Abs((rawCounts - zeroOffset) as real / knownG) > Epsilon
    ensures ToGrams(Normalise(zeroOffset, (rawCounts - zeroOffset) as real / knownG), rawCounts) == knownG
  {
    var counts := (rawCounts - zeroOffset) as real;
    var k := counts / knownG;
    var c := Normalise(zeroOffset, k);
    assert k * knownG == counts;
    if k > 0.0 {
      assert c.scaleFactor == k && c.scaleSign == 1;
      assert counts / k == knownG;
    } else {
      assert c.scaleFactor == -k && c.scaleSign == -1;
      assert -counts / -k == knownG;
    }
  }

  // ------------------------------------------------------------- samples

  /** `latest`: the reported weight, stability and counts. */
  datatype Latest = Latest(g: real, stable: bool, raw: int)

  /** The stability `_update` reports: the device's hint when it gave one,
      otherwise enough samples with a population deviation under 0.05 g,
      compared as a variance under 0.0025. */
  function Stable(hint: Option<bool>, window: seq<real>, windowLen: nat): bool {
    if hint.Some? then hint.value
    else |window| >= Max(5, windowLen / 2) && Util.PVariance(window) < 0.0025
  }

  /** Without a hint, a window of identical readings that is long enough is stable. */
  lemma SteadyWindowIsStable(window: seq<real>, windowLen: nat)
    requires |window| >= Max(5, windowLen / 2)
    requires forall k :: 0 <= k < |window| ==> window[k] == window[0]
    ensures Stable(None, window, windowLen)
  {
    Util.PVarianceOfConstant(window);
  }

  // ------------------------------------------------------------------ log

  /** The events the model writes to the log. */
  datatype LogEvent = NoDataFor(seconds: real) | ParseError

  /** `ADCNotReadyError`: the scale has given no reading in the last second. */
  datatype ReadError = AdcNotReady

  /** A log entry: a frame with what it parsed to, or an event. */
  datatype LogEntry =
    | FrameEntry(ts: real, raw: string, parsed: Option<Frame.Parsed>)
    | EventEntry(ts: real, event: LogEvent)

  /** What `get_serial_log` reports for an entry (the timestamp as a number;
      a zero timestamp reads as none). */
  datatype LogView = LogView(ts: Option<real>, raw: string, parsed: bool, grams: Option<real>,
                             rawCounts: Option<int>, stableHint: Option<bool>, event: Option<LogEvent>)

  function View(e: LogEntry): LogView {
    var ts := if e.ts != 0.0 then Some(e.ts) else None;
    match e
    case FrameEntry(_, raw, p) =>
      if p.None? then LogView(ts, raw, false, None, None, None, None)
      else LogView(ts, raw, true, Some(p.value.grams), Some(p.value.rawCounts), p.value.stableHint, None)
    case EventEntry(_, ev) => LogView(ts, "", false, None, None, None, Some(ev))
  }

  /** The `limit` of `get_serial_log` forced into `[1, LogCapacity]`. */
  function ClampLimit(limit: int): (n: nat)
    ensures 1 <= n <= LogCapacity
    ensures 1 <= limit <= LogCapacity ==> n == limit
    ensures limit < 1 ==> n == 1
    ensures limit > LogCapacity ==> n == LogCapacity
  {
    if limit < 1 then 1 else if limit > LogCapacity then LogCapacity else limit
  }

  // ----------------------------------------------------------- idle event

  /** The outcome of `_emit_idle_event`: the new time of last data and the
      silence reported, if one is. */
  datatype IdleOutcome = IdleOutcome(lastDataTs: real, reported: Option<real>)

  /** `_emit_idle_event` at time `now`: the first call only starts the clock;
      later ones report the silence once it reaches `max(timeout, 0.5)` and
      restart the clock when they do. */
  function IdleStep(lastDataTs: Option<real>, now: real, timeout: real): (r: IdleOutcome)
    ensures r.reported.Some? <==> lastDataTs.Some? && now - lastDataTs.value >= MaxReal(timeout, 0.5)
    ensures r.reported.Some? ==> r.reported.value == now - lastDataTs.value && r.lastDataTs == now
    ensures r.reported.None? && lastDataTs.Some? ==> r.lastDataTs == lastDataTs.value
    ensures lastDataTs.None? ==> r.lastDataTs == now
  {
    if lastDataTs.None? then IdleOutcome(now, None)
    else if now - lastDataTs.value < MaxReal(timeout, 0.5) then IdleOutcome(lastDataTs.value, None)
    else IdleOutcome(now, Some(now - lastDataTs.value))
  }

  /** Two silence reports are at least `max(timeout, 0.5)` seconds apart. */
  lemma IdleReportsAreSpaced(last: Option<real>, t1: real, t2: real, timeout: real)
    requires IdleStep(last, t1, timeout).reported.Some?
    requires IdleStep(Some(IdleStep(last, t1, timeout).lastDataTs), t2, timeout).reported.Some?
    ensures t2 - t1 >= MaxReal(timeout, 0.5) >= 0.5
  {
  }

  // ---------------------------------------------------------------- bytes

  newtype Byte = b: int | 0 <= b < 256

  /** `bytes.decode("ascii", errors="ignore")`: bytes above 127 are dropped. */
  function DecodeAscii(line: seq<Byte>): (s: string)
    ensures |s| <= |line|
    ensures forall k :: 0 <= k < |s| ==> s[k] as int < 128
  {
    if line == [] then [] else DecodeByte(line[0]) + DecodeAscii(line[1..])
  }

  /** One byte decoded: its character when it is ASCII, nothing otherwise. */
  function DecodeByte(b: Byte): (s: string)
    ensures |s| <= 1
    ensures |s| == 1 <==> b < 128
    ensures |s| == 1 ==> s[0] as int == b as int
  {
    if b < 128 then [b as int as char] else []
  }

  function EncodeAscii(s: string): (line: seq<Byte>)
    requires forall k :: 0 <= k < |s| ==> s[k] as int < 128
    ensures |line| == |s|
  {
    seq(|s|, k requires 0 <= k < |s| => s[k] as int as Byte)
  }

  /** ASCII text survives being sent as bytes and decoded. */
  lemma {:induction false} DecodeEncode(s: string)
    requires forall k :: 0 <= k < |s| ==> s[k] as int < 128
    ensures DecodeAscii(EncodeAscii(s)) == s
  {
    if s != [] {
      DecodeEncode(s[1..]);
      assert EncodeAscii(s)[1..] == EncodeAscii(s[1..]);
    }
  }

  /** Decoding works byte by byte: a line decodes as its parts do. */
  lemma {:induction false} DecodeAsciiAppend(a: seq<Byte>, b: seq<Byte>)
    ensures DecodeAscii(a + b) == DecodeAscii(a) + DecodeAscii(b)
  {
    if a == [] {
      assert a + b == b;
    } else {
      var c := a + b;
      assert c[0] == a[0] && c[1..] == a[1..] + b;
      DecodeAsciiAppend(a[1..], b);
      calc {
        DecodeAscii(c);
        DecodeByte(a[0]) + DecodeAscii(a[1..] + b);
        DecodeByte(a[0]) + (DecodeAscii(a[1..]) + DecodeAscii(b));
        (DecodeByte(a[0]) + DecodeAscii(a[1..])) + DecodeAscii(b);
      }
    }
  }

  /** Decoding keeps every byte exactly when all of them are ASCII. */
  lemma {:induction false} DecodeAsciiKeepsAll(line: seq<Byte>)
    ensures |DecodeAscii(line)| == |line| <==> forall k :: 0 <= k < |line| ==> line[k] < 128
  {
    if line != [] {
      DecodeAsciiKeepsAll(line[1..]);
      assert forall k :: 1 <= k < |line| ==> line[k] == line[1..][k - 1];
    }
  }

  /** ASCII bytes survive being decoded and sent again. */
  lemma {:induction false} EncodeDecode(line: seq<Byte>)
    requires forall k :: 0 <= k < |line| ==> line[k] < 128
    ensures EncodeAscii(DecodeAscii(line)) == line
  {
    if line != [] {
      EncodeDecode(line[1..]);
      assert DecodeAscii(line) == [line[0] as int as char] + DecodeAscii(line[1..]);
      assert EncodeAscii(DecodeAscii(line))[1..] == EncodeAscii(DecodeAscii(line[1..]));
    }
  }

  // -------------------------------------------------------------- backoff

  /** How one pass of the read loop ended: the port could not be opened, the
      read raised a serial error, or a frame (possibly empty) was read. */
  datatype LoopOutcome = OpenFailed | ReadFailed | FrameRead

  /** The backoff after a pass that started with backoff `b`. */
  function NextBackoff(b: real, o: LoopOutcome): real {
    match o
    case OpenFailed => if b * 2.0 < 10.0 then b * 2.0 else 10.0
    case ReadFailed => 2.0
    case FrameRead => 1.0
  }

  /** The time slept by a pass that started with backoff `b` (none after a frame). */
  function SleepOf(b: real, o: LoopOutcome): real {
    match o
    case OpenFailed => b
    case ReadFailed => 1.0
    case FrameRead => 0.0
  }

  /** The backoff after the passes `os`, starting from one second. */
  function BackoffAfter(os: seq<LoopOutcome>): real
    decreases |os|
  {
    if os == [] then 1.0 else NextBackoff(BackoffAfter(os[..|os| - 1]), os[|os| - 1])
  }

  /** The sleeps of the passes `os`. */
  function SleepsOf(os: seq<LoopOutcome>): seq<real>
    decreases |os|
  {
    if os == [] then [] else SleepsOf(os[..|os| - 1]) + [SleepOf(BackoffAfter(os[..|os| - 1]), os[|os| - 1])]
  }

  /** The backoff arithmetic of `_loop`, run over a sequence of outcomes. */
  method RunBackoff(os: seq<LoopOutcome>) returns (backoff: real, sleeps: seq<real>)
    ensures backoff == BackoffAfter(os)
    ensures sleeps == SleepsOf(os)
  {
    backoff := 1.0;
    sleeps := [];
    var i := 0;
    while i < |os|
      invariant 0 <= i <= |os|
      invariant backoff == BackoffAfter(os[..i])
      invariant sleeps == SleepsOf(os[..i])
    {
      assert os[..i + 1][..i] == os[..i];
      assert BackoffAfter(os[..i + 1]) == NextBackoff(BackoffAfter(os[..i]), os[i]);
      assert SleepsOf(os[..i + 1]) == SleepsOf(os[..i]) + [SleepOf(BackoffAfter(os[..i]), os[i])];
      match os[i] {
        case OpenFailed =>
          sleeps := sleeps + [backoff];
          backoff := if backoff * 2.0 < 10.0 then backoff * 2.0 else 10.0;
        case ReadFailed =>
          backoff := 1.0;
          sleeps := sleeps + [backoff];
          backoff := if backoff * 2.0 < 10.0 then backoff * 2.0 else 10.0;
        case FrameRead =>
          backoff := 1.0;
          sleeps := sleeps + [0.0];
      }
      i := i + 1;
    }
    assert os[..|os|] == os;
  }

  /** The backoff stays between one and ten seconds. */
  lemma {:induction false} BackoffBounded(os: seq<LoopOutcome>)
    ensures 1.0 <= BackoffAfter(os) <= 10.0
    decreases |os|
  {
    if os != [] {
      BackoffBounded(os[..|os| - 1]);
    }
  }

  function Pow2(k: nat): real {
    if k == 0 then 1.0 else 2.0 * Pow2(k - 1)
  }

  function Repeat(o: LoopOutcome, k: nat): (os: seq<LoopOutcome>)
    ensures |os| == k && forall j :: 0 <= j < k ==> os[j] == o
  {
    if k == 0 then [] else Repeat(o, k - 1) + [o]
  }

  /** `k` failed opens in a row back off for `min(2^k, 10)` seconds. */
  lemma {:induction false} BackoffDoubles(k: nat)
    ensures BackoffAfter(Repeat(OpenFailed, k)) == if Pow2(k) < 10.0 then Pow2(k) else 10.0
  {
    if k > 0 {
      BackoffDoubles(k - 1);
      assert Repeat(OpenFailed, k)[..k - 1] == Repeat(OpenFailed, k - 1);
      Pow2Positive(k - 1);
    }
  }

  lemma {:induction false} Pow2Positive(k: nat)
    ensures Pow2(k) >= 1.0
  {
    if k > 0 {
      Pow2Positive(k - 1);
    }
  }

  /** The fields of the reader that samples and frames change. */
  datatype SampleState = SampleState(window: seq<real>, ema: Option<real>, latest: Latest,
                                     lastRawCounts: Option<int>, lastUpdateTs: real, lastDataTs: Option<real>)

  /** The samples after `_update` takes `rawCounts` at time `now`: the
      reading joins the window, the window's median (the reading itself for a
      window of no length) moves the average, and the average is reported
      with the stability. */
  function UpdatedSamples(s: SampleState, c: Calibration, alpha: real, windowLen: nat,
                          rawCounts: int, hint: Option<bool>, now: real): (r: SampleState)
    requires c.scaleFactor != 0.0 && |s.window| <= windowLen
    ensures |r.window| <= windowLen
    ensures r.ema.Some? && r.latest.g == r.ema.value && r.latest.raw == rawCounts
    ensures r.lastRawCounts == Some(rawCounts) && r.lastUpdateTs == now && r.lastDataTs == Some(now)
  {
    var grams := ToGrams(c, rawCounts);
    var w := Deque.Append(s.window, grams, windowLen);
    var e := Util.EmaStep(alpha, s.ema, if w == [] then grams else Util.MedianOf(w));
    SampleState(w, Some(e), Latest(e, Stable(hint, w, windowLen), rawCounts), Some(rawCounts), now, Some(now))
  }

  /** The new reading is the newest sample of the window, which keeps the
      most recent `windowLen` readings. */
  lemma UpdatedWindowKeepsNewest(s: SampleState, c: Calibration, alpha: real, windowLen: nat,
                                 rawCounts: int, hint: Option<bool>, now: real)
    requires c.scaleFactor != 0.0 && |s.window| <= windowLen
    ensures var r := UpdatedSamples(s, c, alpha, windowLen, rawCounts, hint, now);
            var all := s.window + [ToGrams(c, rawCounts)];
            |r.window| == (if |s.window| < windowLen then |s.window| + 1 else windowLen)
            && r.window == all[|all| - |r.window|..]
            && (windowLen > 0 ==> r.window[|r.window| - 1] == ToGrams(c, rawCounts))
  {
    Deque.AppendKeepsNewest(s.window, ToGrams(c, rawCounts), windowLen);
  }

  /** With a weight between 0 and 1 the reported weight moves from the
      previous average towards the median of the new window and not past it;
      the first sample is reported as that median. */
  lemma UpdatedAverageTracksMedian(s: SampleState, c: Calibration, alpha: real, windowLen: nat,
                                   rawCounts: int, hint: Option<bool>, now: real)
    requires c.scaleFactor != 0.0 && |s.window| <= windowLen
    requires 0.0 <= alpha <= 1.0
    ensures var r := UpdatedSamples(s, c, alpha, windowLen, rawCounts, hint, now);
            var m := if r.window == [] then ToGrams(c, rawCounts) else Util.MedianOf(r.window);
            (s.ema.None? ==> r.latest.g == m)
            && (s.ema.Some? && s.ema.value <= m ==> s.ema.value <= r.latest.g <= m)
            && (s.ema.Some? && m <= s.ema.value ==> m <= r.latest.g <= s.ema.value)
  {
    var r := UpdatedSamples(s, c, alpha, windowLen, rawCounts, hint, now);
    var m := if r.window == [] then ToGrams(c, rawCounts) else Util.MedianOf(r.window);
    if s.ema.Some? {
      Util.EmaStepBetween(alpha, s.ema.value, m);
    }
  }

  /** A hint from the device decides stability; without one, the window must
      be full enough and its population deviation under 0.05 g (a variance
      under 0.0025), so a full enough window of equal readings is stable. */
  lemma UpdatedStability(s: SampleState, c: Calibration, alpha: real, windowLen: nat,
                         rawCounts: int, hint: Option<bool>, now: real)
    requires c.scaleFactor != 0.0 && |s.window| <= windowLen
    ensures var r := UpdatedSamples(s, c, alpha, windowLen, rawCounts, hint, now);
            (hint.Some? ==> r.latest.stable == hint.value)
            && (hint.None? ==> (r.latest.stable <==>
                  |r.window| >= Max(5, windowLen / 2) && Util.PVariance(r.window) < 0.0025))
            && ((hint.None? && |r.window| >= Max(5, windowLen / 2)
                 && forall k :: 0 <= k < |r.window| ==> r.window[k] == r.window[0]) ==> r.latest.stable)
  {
    var r := UpdatedSamples(s, c, alpha, windowLen, rawCounts, hint, now);
    if hint.None? && |r.window| >= Max(5, windowLen / 2) && forall k :: 0 <= k < |r.window| ==> r.window[k] == r.window[0] {
      SteadyWindowIsStable(r.window, windowLen);
    }
  }

  // ---------------------------------------------------------- the reader

  class ScaleReader {
    const nativeCountsPerGram: real
    const alpha: real
    const windowLen: nat
    const timeout: real

    var zeroOffset: int
    var scaleFactor: real
    var scaleSign: int

    var window: seq<real>
    var ema: Option<real>
    var latest: Latest
    var lastRawCounts: Option<int>
    var lastUpdateTs: real
    var rawLog: seq<LogEntry>
    var lastDataTs: Option<real>

    ghost predicate Valid()
      reads this
    {
      |window| <= windowLen && |rawLog| <= LogCapacity && (scaleSign == 1 || scaleSign == -1)
    }

    /** `get_calibration` */
    function GetCalibration(): Calibration
      reads this
    {
      Calibration(zeroOffset, scaleFactor, scaleSign)
    }

    function Samples(): SampleState
      reads this
    {
      SampleState(window, ema, latest, lastRawCounts, lastUpdateTs, lastDataTs)
    }

    /** `__init__`: the factor starts as the native resolution, unnormalised. */
    constructor (nativeCountsPerGram: real, alpha: real, windowLen: nat, timeout: real)
      ensures Valid()
      ensures this.nativeCountsPerGram == nativeCountsPerGram && this.alpha == alpha
      ensures this.windowLen == windowLen && this.timeout == timeout
      ensures GetCalibration() == Calibration(0, nativeCountsPerGram, 1)
      ensures Samples() == SampleState([], None, Latest(0.0, false, 0), None, 0.0, None)
      ensures rawLog == []
    {
      this.nativeCountsPerGram := nativeCountsPerGram;
      this.alpha := alpha;
      this.windowLen := windowLen;
      this.timeout := timeout;
      zeroOffset, scaleFactor, scaleSign := 0, nativeCountsPerGram, 1;
      window, ema, latest := [], None, Latest(0.0, false, 0);
      lastRawCounts, lastUpdateTs, rawLog, lastDataTs := None, 0.0, [], None;
    }

    /** `set_calibration` */
    method SetCalibration(zeroOffset: int, scaleFactor: real)
      requires Valid()
      modifies this
      ensures Valid()
      ensures GetCalibration() == Normalise(zeroOffset, scaleFactor)
      ensures Samples() == old(Samples()) && rawLog == old(rawLog)
    {
      var c := Normalise(zeroOffset, scaleFactor);
      this.zeroOffset, this.scaleFactor, this.scaleSign := c.zeroOffset, c.scaleFactor, c.scaleSign;
    }

    /** `read_raw_avg`: the last counts, if they are at most a second old. */
    function ReadRawAvg(now: real): (r: Result<int, ReadError>)
      reads this
      ensures r.Ok? <==> lastRawCounts.Some? && now - lastUpdateTs <= 1.0
      ensures r.Ok? ==> r.value == lastRawCounts.value
    {
      if lastRawCounts.None? || now - lastUpdateTs > 1.0 then Err(AdcNotReady)
      else Ok(lastRawCounts.value)
    }

    /** `_update`: the samples move on as `UpdatedSamples` says. A zero
        factor (possible only before the first calibration) makes the
        conversion fail before anything changes; `ok` is then false. */
    method Update(rawCounts: int, hint: Option<bool>, now: real) returns (ok: bool)
      requires Valid()
      modifies this
      ensures Valid()
      ensures ok <==> old(scaleFactor) != 0.0
      ensures GetCalibration() == old(GetCalibration()) && rawLog == old(rawLog)
      ensures !ok ==> Samples() == old(Samples())
      ensures ok ==> Samples() == UpdatedSamples(old(Samples()), old(GetCalibration()), alpha, windowLen,
                                                 rawCounts, hint, now)
    {
      if scaleFactor == 0.0 {
        return false;
      }
      var s := UpdatedSamples(Samples(), GetCalibration(), alpha, windowLen, rawCounts, hint, now);
      SetSamples(s);
      return true;
    }

    /** Stores new samples and leaves the calibration and the log alone. */
    method SetSamples(s: SampleState)
      requires |s.window| <= windowLen
      requires Valid()
      modifies this
      ensures Valid()
      ensures Samples() == s
      ensures GetCalibration() == old(GetCalibration()) && rawLog == old(rawLog)
    {
      window, ema, latest := s.window, s.ema, s.latest;
      lastRawCounts, lastUpdateTs, lastDataTs := s.lastRawCounts, s.lastUpdateTs, s.lastDataTs;
    }

    /** `_append_log`: the oldest entry goes once the log is full. */
    method AppendLog(e: LogEntry)
      requires Valid()
      modifies this
      ensures Valid()
      ensures rawLog == Deque.Append(old(rawLog), e, LogCapacity)
      ensures GetCalibration() == old(GetCalibration()) && Samples() == old(Samples())
    {
      rawLog := Deque.Append(rawLog, e, LogCapacity);
    }

    /** `get_serial_log`: the last `limit` entries, oldest first. */
    method GetSerialLog(limit: int) returns (items: seq<LogView>)
      requires Valid()
      ensures |items| == if |rawLog| < ClampLimit(limit) then |rawLog| else ClampLimit(limit)
      ensures forall k :: 0 <= k < |items| ==> items[k] == View(rawLog[|rawLog| - |items| + k])
    {
      var n := ClampLimit(limit);
      var start := if |rawLog| > n then |rawLog| - n else 0;
      items := [];
      var i := start;
      while i < |rawLog|
        invariant start <= i <= |rawLog|
        invariant |items| == i - start
        invariant forall k :: 0 <= k < |items| ==> items[k] == View(rawLog[start + k])
      {
        items := items + [View(rawLog[i])];
        i := i + 1;
      }
    }

    /** `_emit_idle_event` */
    method EmitIdleEvent(now: real)
      requires Valid()
      modifies this
      ensures Valid()
      ensures var r := IdleStep(old(lastDataTs), now, timeout);
              lastDataTs == Some(r.lastDataTs)
              && rawLog == if r.reported.Some? then Deque.Append(old(rawLog), EventEntry(now, NoDataFor(r.reported.value)), LogCapacity)
                           else old(rawLog)
      ensures GetCalibration() == old(GetCalibration())
      ensures window == old(window) && ema == old(ema) && latest == old(latest)
      ensures lastRawCounts == old(lastRawCounts) && lastUpdateTs == old(lastUpdateTs)
    {
      var r := IdleStep(lastDataTs, now, timeout);
      if r.reported.Some? {
        AppendLog(EventEntry(now, NoDataFor(r.reported.value)));
      }
      lastDataTs := Some(r.lastDataTs);
    }

    /** One pass of `_loop` after a successful read of `line`: silence is an
        idle event; text is logged with what it parsed to, and a parsed
        weight is fed to `Update`. A failing update is caught and logged as a
        parse error instead of the frame. */
    method HandleFrame(line: seq<Byte>, now: real)
      requires Valid()
      modifies this
      ensures Valid()
      ensures GetCalibration() == old(GetCalibration())
      ensures var text := Strip(DecodeAscii(line));
              var r := IdleStep(old(lastDataTs), now, timeout);
              text == [] ==>
                Samples() == old(Samples()).(lastDataTs := Some(r.lastDataTs))
                && rawLog == if r.reported.Some? then Deque.Append(old(rawLog), EventEntry(now, NoDataFor(r.reported.value)), LogCapacity)
                             else old(rawLog)
      ensures var text := Strip(DecodeAscii(line));
              var p := Frame.ParseLine(text, nativeCountsPerGram);
              text != [] ==>
                lastDataTs == Some(now)
                && (p.None? ==> rawLog == Deque.Append(old(rawLog), FrameEntry(now, text, p), LogCapacity)
                                && Samples() == old(Samples()).(lastDataTs := Some(now)))
                && (p.Some? && old(scaleFactor) != 0.0 ==>
                      rawLog == Deque.Append(old(rawLog), FrameEntry(now, text, p), LogCapacity)
                      && Samples() == UpdatedSamples(old(Samples()), old(GetCalibration()), alpha, windowLen,
                                                     p.value.rawCounts, p.value.stableHint, now))
                && (p.Some? && old(scaleFactor) == 0.0 ==>
                      rawLog == Deque.Append(old(rawLog), EventEntry(now, ParseError), LogCapacity)
                      && Samples() == old(Samples()).(lastDataTs := Some(now)))
    {
      var text := Strip(DecodeAscii(line));
      if text == [] {
        EmitIdleEvent(now);
      } else {
        HandleText(text, now);
      }
    }

    /** The part of a pass that handles non-blank text. */
    method HandleText(text: string, now: real)
      requires Valid() && text != []
      modifies this
      ensures Valid()
      ensures GetCalibration() == old(GetCalibration())
      ensures var p := Frame.ParseLine(text, nativeCountsPerGram);
              lastDataTs == Some(now)
              && (p.None? ==> rawLog == Deque.Append(old(rawLog), FrameEntry(now, text, p), LogCapacity)
                              && Samples() == old(Samples()).(lastDataTs := Some(now)))
              && (p.Some? && old(scaleFactor) != 0.0 ==>
                    rawLog == Deque.Append(old(rawLog), FrameEntry(now, text, p), LogCapacity)
                    && Samples() == UpdatedSamples(old(Samples()), old(GetCalibration()), alpha, windowLen,
                                                   p.value.rawCounts, p.value.stableHint, now))
              && (p.Some? && old(scaleFactor) == 0.0 ==>
                    rawLog == Deque.Append(old(rawLog), EventEntry(now, ParseError), LogCapacity)
                    && Samples() == old(Samples()).(lastDataTs := Some(now)))
    {
      lastDataTs := Some(now);
      var p := Frame.ParseLine(text, nativeCountsPerGram);
      if p.Some? {
        var ok := Update(p.value.rawCounts, p.value.stableHint, now);
        if !ok {
          AppendLog(EventEntry(now, ParseError));
          return;
        }
      }
      AppendLog(FrameEntry(now, text, p));
    }
  }
}
