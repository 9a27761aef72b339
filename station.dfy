/** The request handlers of app/main.py as operations on an in-memory store:
    the weigh events in insertion order, the variants by id and the
    append-only calibration rows, next to the scale reader. Row ids follow
    SQLite's rowid rule: one more than the largest id present, so an emptied
    table starts again at 1. Clock readings are passed in as `now`. */
module Station {
  import opened Wrappers
  import opened Ascii
  import Reader
  import Util

  /** `Variant`; its id is its key in the store. */
  datatype Variant = Variant(name: string, minG: real, maxG: real, unit: string, enabled: bool)

  /** What a calibration row's `notes` say: a tare, or a known mass in grams. */
  datatype Note = TareNote | KnownMass(knownG: real)

  /** `Calibration` */
  datatype CalibrationRow = CalibrationRow(id: int, zeroOffset: int, scaleFactor: real, notes: Note)

  /** `WeighEvent` */
  datatype WeighEvent = WeighEvent(id: int, ts: real, variantId: int, serial: string,
                                   grossG: real, netG: real, inRange: bool, rawAvg: int)

  /** How a request fails: HTTP 400, 404, 409 and 422, the reader's
      `ADCNotReadyError`, and a missing attribute. */
  datatype Failure = BadRequest | NotFound | Conflict | Unprocessable | AdcNotReady | MissingAttribute(name: string)

  /** What `stats` reports. */
  datatype Stats = Stats(pass: nat, fail: nat, total: nat)

  // ------------------------------------------------------------ variants

  /** The four placeholder variants, with ids 1 to 4, weighed in grams. */
  function SeedVariants(): (m: map<int, Variant>)
    ensures m.Keys == {1, 2, 3, 4}
    ensures forall id :: id in m ==> m[id].unit == "g" && m[id].enabled && m[id].minG < m[id].maxG
  {
    map[1 := Variant("Variant A", 95.0, 105.0, "g", true),
        2 := Variant("Variant B", 145.0, 155.0, "g", true),
        3 := Variant("Variant C", 48.0, 52.0, "g", true),
        4 := Variant("Variant D", 10.0, 12.0, "g", true)]
  }

  /** The range check of `commit`, inclusive at both ends. */
  predicate InRange(v: Variant, g: real) {
    v.minG <= g <= v.maxG
  }

  /** Both limits of a variant pass, and nothing outside them does. */
  lemma InRangeInclusive(v: Variant, g: real)
    requires v.minG <= v.maxG
    ensures InRange(v, v.minG) && InRange(v, v.maxG)
    ensures g < v.minG || g > v.maxG ==> !InRange(v, g)
  {
  }

  // --------------------------------------------------------------- row ids

  /** The largest id, or 0 for an empty table. */
  function MaxId(ids: seq<int>): (m: int)
    ensures m >= 0
    ensures forall k :: 0 <= k < |ids| ==> ids[k] <= m
    decreases |ids|
  {
    if ids == [] then 0
    else
      var rest := MaxId(ids[..|ids| - 1]);
      var last := ids[|ids| - 1];
      if last > rest then last else rest
  }

  /** The id SQLite gives the next row of a table: one above the largest, so
      an emptied table starts again at 1. */
  function NextId(ids: seq<int>): (n: int)
    ensures n >= 1
    ensures forall k :: 0 <= k < |ids| ==> ids[k] < n
  {
    MaxId(ids) + 1
  }

  /** The id column of a table whose rows carry their id as `id`. */
  function Ids<R>(rows: seq<R>, id: R -> int): (ids: seq<int>)
    ensures |ids| == |rows| && forall k :: 0 <= k < |rows| ==> ids[k] == id(rows[k])
  {
    seq(|rows|, k requires 0 <= k < |rows| => id(rows[k]))
  }

  /** The row the startup query `order_by(id desc)` returns first. */
  function LatestCalibration(rows: seq<CalibrationRow>): (r: Option<CalibrationRow>)
    ensures r.None? <==> rows == []
    ensures r.Some? ==> r.value in rows
    ensures r.Some? ==> forall k :: 0 <= k < |rows| ==> rows[k].id <= r.value.id
    decreases |rows|
  {
    if rows == [] then None
    else
      var last := rows[|rows| - 1];
      match LatestCalibration(rows[..|rows| - 1])
      case None => Some(last)
      case Some(c) => if c.id > last.id then Some(c) else Some(last)
  }

  /** The calibration the reader is given at startup: the latest row, or
      offset 0 and factor 1. */
  function StartupCalibration(rows: seq<CalibrationRow>): (c: (int, real))
    ensures rows == [] ==> c == (0, 1.0)
    ensures rows != [] ==> exists k :: 0 <= k < |rows| && c == (rows[k].zeroOffset, rows[k].scaleFactor)
                                 && forall j :: 0 <= j < |rows| ==> rows[j].id <= rows[k].id
  {
    match LatestCalibration(rows)
    case None => (0, 1.0)
    case Some(row) => (row.zeroOffset, row.scaleFactor)
  }

  /** Calibration rows appended one after the other with increasing ids: the
      latest is the last one. */
  lemma {:induction false} LatestOfAppended(rows: seq<CalibrationRow>, row: CalibrationRow)
    requires row.id == NextId(Ids(rows, (c: CalibrationRow) => c.id))
    ensures LatestCalibration(rows + [row]) == Some(row)
  {
    assert (rows + [row])[..|rows|] == rows;
  }

  // ---------------------------------------------------------------- commit

  /** Some event already carries `serial`. */
  predicate SerialUsed(events: seq<WeighEvent>, serial: string) {
    exists k :: 0 <= k < |events| && events[k].serial == serial
  }

  /** No two events carry the same serial. */
  predicate SerialsUnique(events: seq<WeighEvent>) {
    forall i, j :: 0 <= i < j < |events| ==> events[i].serial != events[j].serial
  }

  /** What `commit` answers, in its order of checks: a blank serial, a serial
      used before (for any variant), an unknown variant; otherwise the new
      event, weighed with the reader's latest weight and counts. */
  function CommitOutcome(events: seq<WeighEvent>, variants: map<int, Variant>, variantId: int,
                         serial: string, latest: Reader.Latest, now: real): (r: Result<WeighEvent, Failure>)
    ensures Strip(serial) == [] ==> r == Err(BadRequest)
    ensures Strip(serial) != [] && SerialUsed(events, Strip(serial)) ==> r == Err(Conflict)
    ensures Strip(serial) != [] && !SerialUsed(events, Strip(serial)) && variantId !in variants ==> r == Err(NotFound)
    ensures r.Ok? <==> Strip(serial) != [] && !SerialUsed(events, Strip(serial)) && variantId in variants
    ensures r.Ok? ==> r.value.serial == Strip(serial) && r.value.variantId == variantId
    ensures r.Ok? ==> r.value.grossG == latest.g && r.value.netG == latest.g && r.value.rawAvg == latest.raw
    ensures r.Ok? ==> (r.value.inRange <==> variants[variantId].minG <= latest.g <= variants[variantId].maxG)
    ensures r.Ok? ==> forall k :: 0 <= k < |events| ==> events[k].id < r.value.id
  {
    var s := Strip(serial);
    if s == [] then Err(BadRequest)
    else if SerialUsed(events, s) then Err(Conflict)
    else if variantId !in variants then Err(NotFound)
    else
      var g := latest.g;
      Ok(WeighEvent(NextId(Ids(events, (e: WeighEvent) => e.id)), now, variantId, s, g, g, InRange(variants[variantId], g), latest.raw))
  }

  /** A committed event keeps every serial unique and every id unique. */
  lemma CommitKeepsSerialsUnique(events: seq<WeighEvent>, variants: map<int, Variant>, variantId: int,
                                 serial: string, latest: Reader.Latest, now: real)
    requires SerialsUnique(events)
    ensures var r := CommitOutcome(events, variants, variantId, serial, latest, now);
            r.Ok? ==> SerialsUnique(events + [r.value])
                      && forall k :: 0 <= k < |events| ==> events[k].id != r.value.id
  {
    var r := CommitOutcome(events, variants, variantId, serial, latest, now);
    if r.Ok? {
      var es := events + [r.value];
      forall i, j | 0 <= i < j < |es| ensures es[i].serial != es[j].serial {
        if j == |events| {
          assert es[i] == events[i];
          assert !SerialUsed(events, r.value.serial);
        }
      }
    }
  }

  // ----------------------------------------------------------------- stats

  /** Whether `stats` counts an event: every event unless a non-zero variant id is given. */
  predicate Selected(e: WeighEvent, variantId: Option<int>) {
    variantId.None? || variantId.value == 0 || e.variantId == variantId.value
  }

  /** The selected events whose range check came out as `inRange`. */
  function CountWhere(events: seq<WeighEvent>, variantId: Option<int>, inRange: bool): (n: nat)
    ensures n <= |events|
    decreases |events|
  {
    if events == [] then 0
    else
      var e := events[|events| - 1];
      CountWhere(events[..|events| - 1], variantId, inRange) + (if Selected(e, variantId) && e.inRange == inRange then 1 else 0)
  }

  /** The selected events. */
  function CountSelected(events: seq<WeighEvent>, variantId: Option<int>): (n: nat)
    ensures n <= |events|
    decreases |events|
  {
    if events == [] then 0
    else CountSelected(events[..|events| - 1], variantId) + (if Selected(events[|events| - 1], variantId) then 1 else 0)
  }

  /** `stats` */
  function StatsOf(events: seq<WeighEvent>, variantId: Option<int>): (r: Stats)
    ensures r.total == r.pass + r.fail
  {
    var p := CountWhere(events, variantId, true);
    var f := CountWhere(events, variantId, false);
    Stats(p, f, p + f)
  }

  /** Every selected event is either a pass or a fail, so the total is the
      number of selected events; with no variant (or variant 0) that is all of them. */
  lemma {:induction false} StatsTotalIsSelected(events: seq<WeighEvent>, variantId: Option<int>)
    ensures StatsOf(events, variantId).total == CountSelected(events, variantId)
    ensures variantId.None? || variantId == Some(0) ==> StatsOf(events, variantId).total == |events|
    decreases |events|
  {
    if events != [] {
      StatsTotalIsSelected(events[..|events| - 1], variantId);
    }
  }

  /** A new event adds one to the pass or fail count of every view that
      selects it, and changes no other view. */
  lemma StatsAfterAppend(events: seq<WeighEvent>, e: WeighEvent, variantId: Option<int>)
    ensures var before := StatsOf(events, variantId);
            var after := StatsOf(events + [e], variantId);
            (Selected(e, variantId) && e.inRange ==> after == Stats(before.pass + 1, before.fail, before.total + 1))
            && (Selected(e, variantId) && !e.inRange ==> after == Stats(before.pass, before.fail + 1, before.total + 1))
            && (!Selected(e, variantId) ==> after == before)
  {
    assert (events + [e])[..|events|] == events;
  }

  // ----------------------------------------------------------- calibration

  /** What `calibrate_with_known` answers from the known mass, the read of
      the counts and the stored zero offset: a non-positive mass is refused
      by the request validation, then a failed read, then counts equal to the
      offset; otherwise the new factor, counts over grams. */
  function KnownMassOutcome(knownG: real, read: Result<int, Reader.ReadError>, zeroOffset: int): (r: Result<real, Failure>)
    ensures knownG <= 0.0 ==> r == Err(Unprocessable)
    ensures knownG > 0.0 && read.Err? ==> r == Err(AdcNotReady)
    ensures knownG > 0.0 && read.Ok? && read.value == zeroOffset ==> r == Err(BadRequest)
    ensures r.Ok? <==> knownG > 0.0 && read.Ok? && read.value != zeroOffset
    ensures r.Ok? ==> r.value * knownG == (read.value - zeroOffset) as real && r.value != 0.0
  {
    if knownG <= 0.0 then Err(Unprocessable)
    else if read.Err? then Err(AdcNotReady)
    else if read.value == zeroOffset then Err(BadRequest)
    else Ok((read.value - zeroOffset) as real / knownG)
  }

  /** A tare at counts `raw` keeps the factor's magnitude, turns the sign to
      plus and makes `raw` read as zero grams. */
  lemma TareZeroes(raw: int, factor: real)
    requires factor > 0.0
    ensures var c := Reader.Normalise(raw, factor);
            c.scaleSign == 1 && c.zeroOffset == raw && Reader.ToGrams(c, raw) == 0.0
            && (factor > Reader.Epsilon ==> c.scaleFactor == factor)
  {
    Reader.ToGramsAtZero(Reader.Normalise(raw, factor));
  }

  /** After a successful calibration with a known mass, the counts it was
      taken at read as that mass, unless the factor is small enough to be
      replaced by one. */
  lemma KnownMassReadsBack(knownG: real, raw: int, zeroOffset: int)
    requires KnownMassOutcome(knownG, Ok(raw), zeroOffset).Ok?
    ensures var k := KnownMassOutcome(knownG, Ok(raw), zeroOffset).value;
            Util.Abs(k) > Reader.Epsilon ==> Reader.ToGrams(Reader.Normalise(zeroOffset, k), raw) == knownG
  {
    var k := KnownMassOutcome(knownG, Ok(raw), zeroOffset).value;
    if Util.Abs(k) > Reader.Epsilon {
      Reader.CalibrationRoundTrip(zeroOffset, raw, knownG);
    }
  }

  // ------------------------------------------------ the handlers as written

  /** The attributes the `ScaleReader` constructor assigns. */
  const InstanceAttributes: set<string> := {
    "serial_port", "baudrate", "timeout", "native_counts_per_gram", "bytesize", "parity",
    "stopbits", "xonxoff", "rtscts", "dsrdtr", "set_dtr", "set_rts", "frame_terminator",
    "frame_max_bytes", "alpha", "window", "display_precision", "_serial", "_serial_lock",
    "_state_lock", "_zero_offset", "_scale_factor", "_scale_sign", "ema", "running", "latest",
    "_last_raw_counts", "_last_update_ts", "_raw_log", "_last_data_ts"}

  /** The attributes the `ScaleReader` class body defines: its patterns and its methods. */
  const ClassAttributes: set<string> := {
    "_LINE_SPLIT_RE", "_NUMBER_PATTERN", "_NUMBER_RE", "_NUMBER_WITH_UNIT_RE", "_NET_VALUE_RE",
    "_VERBOSE_FIELD_RE", "__init__",
    "set_calibration", "get_calibration", "start", "stop", "read_latest", "read_raw_avg",
    "get_serial_log", "_loop", "_ensure_serial", "_reset_serial", "_emit_idle_event",
    "_parse_line", "_extract_grams", "_update", "_append_log", "_note_data_received",
    "_coerce_bytesize", "_coerce_parity", "_coerce_stopbits", "_coerce_terminator"}

  /** Every attribute a `ScaleReader` has beyond those every object has. */
  const ReaderAttributes: set<string> := InstanceAttributes + ClassAttributes

  lemma NotInstanceAttributes()
    ensures "scale_factor" !in InstanceAttributes && "zero_offset" !in InstanceAttributes
  {
  }

  lemma NotClassAttributes()
    ensures "scale_factor" !in ClassAttributes && "zero_offset" !in ClassAttributes
  {
  }

  /** The reader keeps its calibration under private names only. */
  lemma ReaderLacksCalibrationAttributes()
    ensures "scale_factor" !in ReaderAttributes && "zero_offset" !in ReaderAttributes
  {
    NotInstanceAttributes();
    NotClassAttributes();
  }

  /** `tare` as written: after the read it looks up `reader.scale_factor`. */
  function TareAsWritten(read: Result<int, Reader.ReadError>, attributes: set<string>): (r: Result<int, Failure>)
    ensures read.Err? ==> r == Err(AdcNotReady)
    ensures read.Ok? ==> (r.Ok? <==> "scale_factor" in attributes)
  {
    if read.Err? then Err(AdcNotReady)
    else if "scale_factor" !in attributes then Err(MissingAttribute("scale_factor"))
    else Ok(read.value)
  }

  /** `calibrate_with_known` as written: after the read it looks up
      `reader.zero_offset`. */
  function KnownMassAsWritten(knownG: real, read: Result<int, Reader.ReadError>, attributes: set<string>,
                              zeroOffset: int): (r: Result<real, Failure>)
    ensures knownG > 0.0 && read.Ok? && "zero_offset" !in attributes ==> r == Err(MissingAttribute("zero_offset"))
    ensures "zero_offset" in attributes ==> r == KnownMassOutcome(knownG, read, zeroOffset)
  {
    if knownG <= 0.0 then Err(Unprocessable)
    else if read.Err? then Err(AdcNotReady)
    else if "zero_offset" !in attributes then Err(MissingAttribute("zero_offset"))
    else KnownMassOutcome(knownG, read, zeroOffset)
  }

  /** Neither handler can succeed against the reader: it has neither
      attribute, so a tare at fresh counts 1000, or a 100 g calibration at
      counts 1000 over offset 0, fails where the intended handler succeeds. */
  lemma CalibrationHandlersAsWrittenFail(read: Result<int, Reader.ReadError>, knownG: real, zeroOffset: int)
    ensures "scale_factor" !in ReaderAttributes && "zero_offset" !in ReaderAttributes
    ensures TareAsWritten(read, ReaderAttributes).Err?
    ensures KnownMassAsWritten(knownG, read, ReaderAttributes, zeroOffset).Err?
    ensures TareAsWritten(Ok(1000), ReaderAttributes) == Err(MissingAttribute("scale_factor"))
    ensures KnownMassAsWritten(100.0, Ok(1000), ReaderAttributes, 0) == Err(MissingAttribute("zero_offset"))
    ensures KnownMassOutcome(100.0, Ok(1000), 0) == Ok(10.0)
  {
    ReaderLacksCalibrationAttributes();
  }

  // ------------------------------------------------------------ the store

  class WeighStation {
    const reader: Reader.ScaleReader
    var events: seq<WeighEvent>
    var variants: map<int, Variant>
    var calibrations: seq<CalibrationRow>

    ghost predicate Valid()
      reads this, reader
    {
      reader.Valid()
    }

    /** Startup: the reader takes the latest stored calibration (or offset 0
        and factor 1), and an empty variant table is seeded. */
    constructor Startup(reader: Reader.ScaleReader, calibrations: seq<CalibrationRow>,
                        variants: map<int, Variant>, events: seq<WeighEvent>)
      requires reader.Valid()
      modifies reader
      ensures this.reader == reader && Valid()
      ensures reader.GetCalibration() == Reader.Normalise(StartupCalibration(calibrations).0, StartupCalibration(calibrations).1)
      ensures reader.Samples() == old(reader.Samples()) && reader.rawLog == old(reader.rawLog)
      ensures this.variants == if |variants| == 0 then SeedVariants() else variants
      ensures this.events == events && this.calibrations == calibrations
    {
      this.reader := reader;
      this.calibrations := calibrations;
      this.variants := if |variants| == 0 then SeedVariants() else variants;
      this.events := events;
      new;
      var c := StartupCalibration(calibrations);
      reader.SetCalibration(c.0, c.1);
    }

    /** `commit`: one new event on success, nothing otherwise. */
    method Commit(variantId: int, serial: string, now: real) returns (r: Result<WeighEvent, Failure>)
      modifies this
      ensures r == CommitOutcome(old(events), variants, variantId, serial, reader.latest, now)
      ensures events == if r.Ok? then old(events) + [r.value] else old(events)
      ensures variants == old(variants) && calibrations == old(calibrations)
    {
      r := CommitOutcome(events, variants, variantId, serial, reader.latest, now);
      if r.Ok? {
        events := events + [r.value];
      }
    }

    /** `stats` */
    method GetStats(variantId: Option<int>) returns (s: Stats)
      ensures s == StatsOf(events, variantId)
      ensures s.total == CountSelected(events, variantId)
    {
      s := StatsOf(events, variantId);
      StatsTotalIsSelected(events, variantId);
    }

    /** `tare`, reading the stored factor: the fresh counts become the zero
        offset, a row is appended and the reader keeps the factor's
        magnitude with a plus sign. */
    method Tare(now: real) returns (r: Result<int, Failure>)
      requires Valid()
      modifies this, reader
      ensures Valid()
      ensures old(reader.ReadRawAvg(now)).Err? ==>
                r == Err(AdcNotReady) && calibrations == old(calibrations)
                && reader.GetCalibration() == old(reader.GetCalibration())
      ensures old(reader.ReadRawAvg(now)).Ok? ==>
                var raw := old(reader.ReadRawAvg(now)).value;
                r == Ok(raw)
                && calibrations == old(calibrations) + [CalibrationRow(NextId(Ids(old(calibrations), (c: CalibrationRow) => c.id)), raw,
                                                                       old(reader.scaleFactor), TareNote)]
                && reader.GetCalibration() == Reader.Normalise(raw, old(reader.scaleFactor))
      ensures reader.Samples() == old(reader.Samples()) && reader.rawLog == old(reader.rawLog)
      ensures events == old(events) && variants == old(variants)
    {
      var read := reader.ReadRawAvg(now);
      if read.Err? {
        return Err(AdcNotReady);
      }
      var factor := reader.GetCalibration().scaleFactor;
      calibrations := calibrations + [CalibrationRow(NextId(Ids(calibrations, (c: CalibrationRow) => c.id)), read.value, factor, TareNote)];
      reader.SetCalibration(read.value, factor);
      r := Ok(read.value);
    }

    /** `calibrate_with_known`, reading the stored offset: on success the
        factor is counts over grams, the offset stays and a row is appended. */
    method CalibrateWithKnown(knownG: real, now: real) returns (r: Result<real, Failure>)
      requires Valid()
      modifies this, reader
      ensures Valid()
      ensures r == KnownMassOutcome(knownG, old(reader.ReadRawAvg(now)), old(reader.zeroOffset))
      ensures r.Err? ==> calibrations == old(calibrations) && reader.GetCalibration() == old(reader.GetCalibration())
      ensures r.Ok? ==>
                calibrations == old(calibrations) + [CalibrationRow(NextId(Ids(old(calibrations), (c: CalibrationRow) => c.id)),
                                                                    old(reader.zeroOffset), r.value, KnownMass(knownG))]
                && reader.GetCalibration() == Reader.Normalise(old(reader.zeroOffset), r.value)
      ensures reader.Samples() == old(reader.Samples()) && reader.rawLog == old(reader.rawLog)
      ensures events == old(events) && variants == old(variants)
    {
      r := KnownMassOutcome(knownG, reader.ReadRawAvg(now), reader.zeroOffset);
      if r.Ok? {
        var z := reader.zeroOffset;
        calibrations := calibrations + [CalibrationRow(NextId(Ids(calibrations, (c: CalibrationRow) => c.id)), z, r.value, KnownMass(knownG))];
        reader.SetCalibration(z, r.value);
      }
    }

    /** `delete_all_events`: only with the confirmation word. */
    method DeleteAllEvents(confirm: string) returns (r: Result<(), Failure>)
      modifies this
      ensures confirm != "DELETE" ==> r == Err(BadRequest) && events == old(events)
      ensures confirm == "DELETE" ==> r == Ok(()) && events == []
      ensures variants == old(variants) && calibrations == old(calibrations)
    {
      if confirm != "DELETE" {
        return Err(BadRequest);
      }
      events := [];
      r := Ok(());
    }

    /** `factory_reset`: with the confirmation word, every table is emptied
        and the four variants are seeded again. The reader keeps its
        calibration until the next startup. */
    method FactoryReset(confirm: string) returns (r: Result<(), Failure>)
      modifies this
      ensures confirm != "RESET" ==> r == Err(BadRequest) && events == old(events)
                                     && variants == old(variants) && calibrations == old(calibrations)
      ensures confirm == "RESET" ==> r == Ok(()) && events == [] && calibrations == [] && variants == SeedVariants()
    {
      if confirm != "RESET" {
        return Err(BadRequest);
      }
      events, calibrations, variants := [], [], SeedVariants();
      r := Ok(());
    }
  }
}
