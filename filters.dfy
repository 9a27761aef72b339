/** The drift filter of app/filters.py: a median over an odd window, an
    exponential moving average of the medians, and a slow zero tracker that
    shifts an offset by a fixed step when the output has sat still near zero
    for a full window. The environment switch that turns the filter into the
    identity is the constructor's `bypass` flag. */
module Filters {
  import opened Wrappers
  import Util
  import Deque

  /** `int(x)`: truncation toward zero. */
  function Truncate(x: real): (n: int)
    ensures 0.0 <= x ==> 0 <= n && n as real <= x < n as real + 1.0
    ensures x < 0.0 ==> n <= 0 && x <= n as real && n as real - 1.0 < x
  {
    if x >= 0.0 then x.Floor else -((-x).Floor)
  }

  /** The median window: an even length is made odd by one more slot. */
  function MedianWindowLength(n: nat): (r: nat)
    ensures r % 2 == 1
    ensures n % 2 == 1 ==> r == n
    ensures n % 2 == 0 ==> r == n + 1
  {
    if n % 2 == 0 then n + 1 else n
  }

  /** The window of recent outputs: one and a half seconds of samples, and
      never fewer than ten. */
  function RecentWindowLength(sampleHz: real): (r: nat)
    ensures r >= 10
    ensures sampleHz * 1.5 < 11.0 ==> r == 10
    ensures sampleHz * 1.5 >= 11.0 ==> r as real <= sampleHz * 1.5 < r as real + 1.0
  {
    var t := Truncate(sampleHz * 1.5);
    if t > 10 then t else 10
  }

  /** The correction the zero tracker applies to an output `y`:
      `zero_rate` against the sign of `y`, nothing at zero. */
  function TrackingStep(rate: real, y: real): (step: real)
    ensures y > 0.0 ==> step == -rate
    ensures y < 0.0 ==> step == rate
    ensures y == 0.0 ==> step == 0.0
  {
    if y > 0.0 then -rate else if y < 0.0 then rate else 0.0
  }

  /** The filter's settings. */
  datatype Settings = Settings(medianLen: nat, alpha: real, zeroGate: real, zeroVar: real,
                               zeroRate: real, recentLen: nat)

  /** The filter's state: the median buffer, the average, the offset taken
      off every input and the recent outputs. */
  datatype FilterState = FilterState(buf: seq<real>, ema: Option<real>, offset: real, recent: seq<real>)

  predicate Fits(p: Settings, s: FilterState) {
    p.medianLen > 0 && p.recentLen > 0 && |s.buf| <= p.medianLen && |s.recent| <= p.recentLen
  }

  /** Whether the zero tracker acts on the average `e` once `recent` holds it. */
  predicate Tracks(p: Settings, recent: seq<real>, e: real)
    requires |recent| > 0
  {
    |recent| >= p.recentLen && Util.Abs(e) < p.zeroGate && Util.Max(recent) - Util.Min(recent) < p.zeroVar
  }

  /** One `update(g)`: the new state and the output. */
  function Step(p: Settings, s: FilterState, g: real): (r: (FilterState, real))
    requires Fits(p, s)
    ensures Fits(p, r.0)
  {
    var t := Smooth(p, s, g);
    var e := t.ema.value;
    if Tracks(p, t.recent, e) then
      var step := TrackingStep(p.zeroRate, e);
      (t.(offset := s.offset + step), e - step)
    else
      (t, e)
  }

  /** The part of a step before the zero tracker: both buffers and the
      average move on, the offset stays. */
  function Smooth(p: Settings, s: FilterState, g: real): (t: FilterState)
    requires Fits(p, s)
    ensures Fits(p, t) && t.ema.Some? && |t.recent| > 0 && t.offset == s.offset
  {
    var buf := Deque.Append(s.buf, g - s.offset, p.medianLen);
    var e := Util.EmaStep(p.alpha, s.ema, Util.Median(buf));
    FilterState(buf, Some(e), s.offset, Deque.Append(s.recent, e, p.recentLen))
  }

  /** The buffers take the offset-corrected input and the new average, each
      keeping only its most recent values. */
  lemma StepBuffers(p: Settings, s: FilterState, g: real)
    requires Fits(p, s)
    ensures var r := Step(p, s, g).0;
            r.buf == Deque.Append(s.buf, g - s.offset, p.medianLen)
            && r.buf[|r.buf| - 1] == g - s.offset
            && r.ema.Some?
            && r.recent == Deque.Append(s.recent, r.ema.value, p.recentLen)
            && r.recent[|r.recent| - 1] == r.ema.value
  {
    var t := Smooth(p, s, g);
    assert Step(p, s, g).0.buf == t.buf && Step(p, s, g).0.ema == t.ema && Step(p, s, g).0.recent == t.recent;
    Deque.AppendLast(s.buf, g - s.offset, p.medianLen);
    Deque.AppendLast(s.recent, t.ema.value, p.recentLen);
  }

  /** The average starts at the first median and then moves towards each new
      median by at most the whole distance, when `alpha` is a weight. */
  lemma StepAverage(p: Settings, s: FilterState, g: real)
    requires Fits(p, s)
    requires 0.0 <= p.alpha <= 1.0
    ensures var r := Step(p, s, g).0;
            var m := Util.Median(r.buf);
            (s.ema.None? ==> r.ema == Some(m))
            && (s.ema.Some? && s.ema.value <= m ==> s.ema.value <= r.ema.value <= m)
            && (s.ema.Some? && m <= s.ema.value ==> m <= r.ema.value <= s.ema.value)
  {
    var r := Step(p, s, g).0;
    if s.ema.Some? {
      Util.EmaStepBetween(p.alpha, s.ema.value, Util.Median(r.buf));
    }
  }

  /** Until the recent window is full the offset stays and the output is the
      average. */
  lemma NoTrackingUntilFull(p: Settings, s: FilterState, g: real)
    requires Fits(p, s)
    requires |s.recent| + 1 < p.recentLen
    ensures var r := Step(p, s, g);
            r.0.offset == s.offset && r.1 == r.0.ema.value
  {
  }

  /** The offset moves only when the window is full, the average is inside
      the zero gate and the recent outputs spread less than `zero_var`, and
      then by one step against the average's sign; otherwise the output is
      the average itself. */
  lemma StepTracking(p: Settings, s: FilterState, g: real)
    requires Fits(p, s)
    ensures var r := Step(p, s, g);
            var e := r.0.ema.value;
            (Tracks(p, r.0.recent, e) ==> r.0.offset == s.offset + TrackingStep(p.zeroRate, e)
                                          && r.1 == e - TrackingStep(p.zeroRate, e))
            && (!Tracks(p, r.0.recent, e) ==> r.0.offset == s.offset && r.1 == e)
  {
  }

  /** As written, a step moves the output AWAY from zero by `zero_rate` and
      shifts the offset the same way, so later inputs read further from zero. */
  lemma TrackingMovesAwayFromZero(p: Settings, s: FilterState, g: real)
    requires Fits(p, s)
    requires p.zeroRate >= 0.0
    ensures var r := Step(p, s, g);
            var e := r.0.ema.value;
            Tracks(p, r.0.recent, e) && e != 0.0 ==>
              Util.Abs(r.1) == Util.Abs(e) + p.zeroRate
              && (e > 0.0 ==> r.0.offset == s.offset - p.zeroRate)
              && (e < 0.0 ==> r.0.offset == s.offset + p.zeroRate)
  {
  }

  /** `DriftFilter`. In bypass mode it is the identity and its state never
      changes. */
  class DriftFilter {
    const bypass: bool
    const settings: Settings

    var buf: seq<real>
    var ema: Option<real>
    var offset: real
    var recent: seq<real>

    function State(): FilterState
      reads this
    {
      FilterState(buf, ema, offset, recent)
    }

    ghost predicate Valid()
      reads this
    {
      Fits(settings, State())
      && settings.medianLen % 2 == 1 && settings.recentLen >= 10
      && (bypass ==> State() == FilterState([], None, 0.0, []))
    }

    /** `__init__`: a negative `median_n` makes the deque constructor fail,
        so outside bypass mode it must not be negative. */
    constructor (bypass: bool, medianN: int, alpha: real, zeroGateG: real, zeroVarG: real,
                 zeroRateGps: real, sampleHz: real)
      requires bypass || medianN >= 0
      ensures Valid()
      ensures this.bypass == bypass
      ensures !bypass ==> settings == Settings(MedianWindowLength(medianN), alpha, zeroGateG, zeroVarG,
                                              zeroRateGps, RecentWindowLength(sampleHz))
      ensures State() == FilterState([], None, 0.0, [])
    {
      this.bypass := bypass;
      settings := if bypass then Settings(1, alpha, zeroGateG, zeroVarG, zeroRateGps, 10)
                  else Settings(MedianWindowLength(medianN), alpha, zeroGateG, zeroVarG,
                                zeroRateGps, RecentWindowLength(sampleHz));
      buf, ema, offset, recent := [], None, 0.0, [];
    }

    /** `update(g)`: the input itself in bypass mode, otherwise one `Step`. */
    method Update(g: real) returns (y: real)
      requires Valid()
      modifies this
      ensures Valid()
      ensures bypass ==> y == g && State() == old(State())
      ensures !bypass ==> (State(), y) == Step(settings, old(State()), g)
    {
      if bypass {
        return g;
      }
      var r := Step(settings, State(), g);
      SetState(r.0);
      y := r.1;
    }

    method SetState(s: FilterState)
      requires Valid() && !bypass && Fits(settings, s)
      modifies this
      ensures Valid()
      ensures State() == s
    {
      buf, ema, offset, recent := s.buf, s.ema, s.offset, s.recent;
    }

    /** `reset`: both windows empty, no average, no offset. */
    method Reset()
      requires Valid()
      modifies this
      ensures Valid()
      ensures State() == FilterState([], None, 0.0, [])
    {
      if bypass {
        return;
      }
      buf, ema, offset, recent := [], None, 0.0, [];
    }
  }
}
