# Weigh station acquisition core, in Dafny

A bench scale (a Brecknell B140 on RS-232) streams ASCII frames. The weigh station:

- decodes each frame into a weight in grams, the counts that weight stands for, and the device's stability hint;
- calibrates the counts (a zero offset plus a factor kept as a positive magnitude and a sign);
- smooths the readings through a window median and an exponential moving average, and judges stability;
- keeps a 2000-entry diagnostic log;
- records weigh events against part variants through a small set of request handlers.

The project models that core as follows.

- `Number`: the number pattern of the reader, recognised by hand. The recogniser is proved to return the leftmost-longest lexeme and to read written-out naturals back exactly.
- `Frame`: `_parse_line` and the `_extract_grams` cascade.
  - Tokenisation, proved as a round trip with joining.
  - The stability hint, as a reference definition and as the source's scanning loop, proved equal.
  - Unit conversion, with its factor proved for every unit spelling the patterns and tokens accept, and each regular expression as an anchored matcher plus a leftmost search.
  - The stage order of the cascade, and the rounding of counts.
- `Config`: `_env_bool` and the serial-setting coercions. Each is proved to read every value's canonical name back, and to ignore spacing and case.
- `Deque`: `deque(maxlen=…)` append, which drops the oldest element once full.
- `Util`: `median_of` and `stdev_of` (the standard deviation via the population variance), and the moving average shared by the reader and the filter.
- `Reader`: the `ScaleReader` class.
  - Calibration, the per-sample update (specified by the pure `UpdatedSamples`), the freshness check, the log, the idle throttle, and one pass of the read loop on a frame.
  - Besides the class: the backoff arithmetic of the read loop, run as a loop against a fold.
- `Filters`: the `DriftFilter` class, specified by the pure `Step`, with the bypass switch as a constructor flag. As written, the zero tracker's step pushes a near-zero output away from zero; `TrackingMovesAwayFromZero` proves it.
- `Station`: the request handlers of `app/main.py` as methods on an in-memory store:
  - the weigh events, the variants by id, and the calibration rows;
  - startup (calibration load and variant seeding), commit, stats, tare, calibration with a known mass, and the two confirmation-guarded admin resets.

Clock readings are parameters (`now`). The environment is passed in as `Option<string>`.

Points of behaviour that are easy to misread:

- counts convert as sign × (raw − offset) / factor, with the sign kept separately from the factor;
- stability is the device hint, or else a window variance below 0.0025; there is no consecutive-sample state machine;
- a duplicate serial is refused with 409, and there is no overwrite path;
- there is no automatic tare; the drift filter's offset tracking is the only zero correction.

## Model

| member | source | states |
|---|---|---|
| `Number.MatchEndIsLongestLexeme` | app/hx711_reader.py:57 | the anchored matcher accepts exactly the lexemes of `[-+]?(?:\d+(?:\.\d+)?|\.\d+)` and returns the longest one |
| `Number.NumberAt` | app/hx711_reader.py:57 | a match at `i` starts at `i` and spans a lexeme; no match means no lexeme starts at `i` |
| `Number.SearchIsLeftmostLongest` | app/hx711_reader.py:57 | `search` finds a lexeme, no lexeme starts further left, and none at the same start is longer |
| `Number.NumberAtDigits` | app/hx711_reader.py:57 | the decimal digits of any natural are matched whole and read back as that number |
| `Frame.Tokens` | app/hx711_reader.py:311 | every token is a non-empty run free of commas and whitespace |
| `Frame.TokensOfJoin` | app/hx711_reader.py:311 | splitting tokens joined by a separator gives the tokens back |
| `Frame.TokensEmptyIffAllSeparators` | app/hx711_reader.py:311-313 | a frame has no tokens exactly when it is all separators |
| `Frame.ScanStabilityHint` | app/hx711_reader.py:317-323 | the scanning loop returns the reference hint: false if any token is US/UN/UNSTABLE, else true if any is ST/STABLE, else none |
| `Frame.UnitFactor` | app/hx711_reader.py:335-343 | the factor is one of 1000, 453.59237, 28.349523125 and 1 |
| `Frame.UnitFactorTable` | app/hx711_reader.py:335-343 | a unit spelled, in any case, as KG/KGS/KILOGRAM(S) converts by 1000, LB/LBS/POUND(S) by 453.59237, OZ/OZS/OUNCE(S) by 28.349523125, and G/GRAM(S) by 1 |
| `Frame.EmbeddedUnitFactors` | app/hx711_reader.py:335-343 | each unit the embedded-unit stage looks for converts by its own factor (kg and kilogram by 1000, lb and pound by 453.59237, oz and ounce by 28.349523125, g and gram by 1) |
| `Frame.CapturedUnitIsUnitWord` | app/hx711_reader.py:59-62 | a unit the patterns capture is, up to case, one of the unit-token spellings, so it converts as the table says |
| `Frame.UnitFactorIgnoresCase` | app/hx711_reader.py:336 | the unit's case does not change the factor |
| `Frame.UnitAt` | app/hx711_reader.py:59-62 | a captured unit is the text of one alternative that matches case-insensitively at `i`; none means no alternative matches |
| `Frame.NumberWithUnitSearch` | app/hx711_reader.py:365-373 | the number-and-unit pair found is the one at the leftmost position where the pattern matches |
| `Frame.NetSearch` | app/hx711_reader.py:63-66 | the net value found is the one at the leftmost position where the net pattern matches |
| `Frame.EmbeddedValue` | app/hx711_reader.py:379-394 | a unit yields a value only when the lower-cased token contains it, and the value is the number before the unit's first occurrence (after it, when the unit opens the token), converted by that unit |
| `Frame.EmbeddedInToken` | app/hx711_reader.py:378-394 | a token's value is the one of the first listed unit that yields one; none when no unit does |
| `Frame.EmbeddedStage` | app/hx711_reader.py:376-394 | the stage's value is that of the first token with an embedded-unit value; none when no token has one |
| `Frame.NeighbourValue` | app/hx711_reader.py:398-415 | only a unit token yields; a number in the token before it wins, the token after it is used only when the one before has no number, and a unit token with neither gives none |
| `Frame.NeighbourStage` | app/hx711_reader.py:397-415 | the stage's value is that of the first unit token with a numeric neighbour; none when no unit token has one |
| `Frame.PlausibleStage` | app/hx711_reader.py:420-429 | the fallback is the first number of the first token whose number has magnitude at most 1e6; none when no token has one |
| `Frame.ExtractGramsPriority` | app/hx711_reader.py:345-373 | a net value decides alone; a ticket field without one gives nothing; then the number-and-unit pair, the embedded-unit stage and the neighbour stage decide in that order, each only when every earlier one found nothing |
| `Frame.NetWithoutUnitIsKilograms` | app/hx711_reader.py:351-357 | a net value with no unit is read in kilograms |
| `Frame.FallbackIsFirstPlausible` | app/hx711_reader.py:376-431 | when no earlier stage yields, the weight is the first plausible number |
| `Frame.RoundHalfEven` | app/hx711_reader.py:329 | the integer is within one half of the value, and a tie rounds to even |
| `Frame.Reading` | app/hx711_reader.py:329-330 | the counts are within one half of grams × native counts per gram |
| `Frame.ParseLine` | app/hx711_reader.py:309-330 | a parsed frame's counts are its grams at the native resolution, rounded |
| `Frame.ParseLineStages` | app/hx711_reader.py:309-330 | no tokens or no extracted weight gives none; otherwise the cascade's weight with the tokens' hint |
| `Config.EnvBoolWords` | app/hx711_reader.py:14-23 | the true words give true, the false words give false, and only they override the default |
| `Config.EnvBoolNormalises` | app/hx711_reader.py:18 | a flag reads the same as its stripped, lower-cased form |
| `Config.EnvBoolRoundTrip` | app/hx711_reader.py:14-23 | a boolean's name reads back as itself, whatever the default |
| `Config.NormalisedIdempotent` | app/hx711_reader.py:18 | stripping and lower-casing twice is doing it once |
| `Config.BytesizeRoundTrip` | app/hx711_reader.py:475-485 | each byte size's digit reads back as that size |
| `Config.ParityRoundTrip` | app/hx711_reader.py:488-504 | each parity's name reads back as that parity |
| `Config.StopbitsRoundTrip` | app/hx711_reader.py:507-517 | each stop-bit setting's name reads back as that setting |
| `Config.CoerceNormalises` | app/hx711_reader.py:475-517 | a setting reads the same as its stripped (and, for parity and stop bits, lower-cased) form; an empty or all-blank setting gives no parity, one stop bit and eight data bits |
| `Deque.Append` | app/hx711_reader.py:106 | below capacity the element is added at the end; at capacity the oldest goes |
| `Deque.AppendKeepsNewest` | app/hx711_reader.py:123 | after an append the deque holds the newest min(cap, n + 1) elements in order, the new one last |
| `Util.MedianOf` | app/util.py:4-6 | no values give 0.0; otherwise the median lies between the minimum and the maximum |
| `Util.MedianOfSortedArrangement` | app/util.py:6 | the median is the middle of any ascending arrangement, or the mean of its two middle elements |
| `Util.MedianOrderIndependent` | app/util.py:6 | permuting the values does not change the median |
| `Util.MedianBounded` | app/util.py:6 | the median lies between the minimum and the maximum |
| `Util.SortedUnique` | app/util.py:6 | two ascending arrangements of the same values are equal |
| `Util.StdevOf` | app/util.py:8-10 | infinite exactly below two values; otherwise the square root of a non-negative variance |
| `Util.StdevOfConstant` | app/util.py:10 | two or more equal values have deviation zero |
| `Util.PVarianceOfConstant` | app/util.py:10 | equal values have population variance zero |
| `Util.EmaStepBetween` | app/hx711_reader.py:443 | with alpha in [0, 1] the average moves from its old value towards the new one and not past it |
| `Reader.Normalise` | app/hx711_reader.py:128-132 | the offset is kept; the factor is positive: the magnitude above 1e-9, else 1; the sign is −1 exactly for a negative factor |
| `Reader.ToGramsAtZero` | app/hx711_reader.py:439 | the zero offset converts to zero grams |
| `Reader.CalibrationRoundTrip` | app/hx711_reader.py:128-132 | a factor of counts over a known mass, once normalised, converts those counts back to the mass |
| `Reader.SteadyWindowIsStable` | app/hx711_reader.py:445-449 | without a hint, a long enough window of equal readings is stable |
| `Reader.ClampLimit` | app/hx711_reader.py:173 | the log limit is forced into [1, 2000] and kept when already inside |
| `Reader.IdleStep` | app/hx711_reader.py:294-307 | the first call only starts the clock; a silence is reported exactly when it reaches max(timeout, 0.5), and reporting restarts the clock |
| `Reader.IdleReportsAreSpaced` | app/hx711_reader.py:294-307 | two successive silence reports are at least max(timeout, 0.5) ≥ 0.5 s apart |
| `Reader.DecodeAscii` | app/hx711_reader.py:214 | decoding never lengthens the line and leaves only ASCII characters |
| `Reader.DecodeByte` | app/hx711_reader.py:214 | a byte decodes to one character, its own code, exactly when it is below 128, and to nothing otherwise |
| `Reader.DecodeAsciiAppend` | app/hx711_reader.py:214 | a line decodes as the concatenation of its parts' decodings, so decoding is the byte-by-byte filter of `DecodeByte` |
| `Reader.DecodeAsciiKeepsAll` | app/hx711_reader.py:214 | decoding keeps the line's length exactly when every byte is ASCII |
| `Reader.EncodeDecode` | app/hx711_reader.py:214 | an all-ASCII line decoded and encoded again is the same bytes |
| `Reader.DecodeEncode` | app/hx711_reader.py:214 | ASCII text sent as bytes decodes back to itself |
| `Reader.RunBackoff` | app/hx711_reader.py:196-242 | the read loop's backoff and sleeps equal the fold over the pass outcomes |
| `Reader.BackoffBounded` | app/hx711_reader.py:197-204 | the backoff stays between 1 and 10 seconds |
| `Reader.BackoffDoubles` | app/hx711_reader.py:199-201 | k failed opens in a row back off for min(2^k, 10) seconds |
| `Reader.UpdatedSamples` | app/hx711_reader.py:433-459 | the window stays within its capacity; the reported weight is the new average; the counts and both timestamps are the sample's |
| `Reader.UpdatedWindowKeepsNewest` | app/hx711_reader.py:439-441 | the window holds the most recent readings with the new conversion last |
| `Reader.UpdatedAverageTracksMedian` | app/hx711_reader.py:442-443 | the first average is the median; later ones move towards the new median and not past it |
| `Reader.UpdatedStability` | app/hx711_reader.py:445-449 | a device hint decides stability; without one the reading is stable exactly when the window holds at least max(5, maxlen // 2) samples and their population deviation is under 0.05 (variance under 0.0025); so a full enough window of equal readings is stable |
| `Reader.ScaleReader.constructor` | app/hx711_reader.py:106-124 | the factor starts as the native resolution with sign +1, no samples and an empty log |
| `Reader.ScaleReader.SetCalibration` | app/hx711_reader.py:128-140 | the calibration read back is the normalised one, and nothing else changes |
| `Reader.ScaleReader.ReadRawAvg` | app/hx711_reader.py:164-170 | the last counts when there are any and they are at most 1 s old; a not-ready error otherwise |
| `Reader.ScaleReader.Update` | app/hx711_reader.py:433-459 | a zero factor fails before anything changes; otherwise the samples become `UpdatedSamples`, and the calibration and log stay |
| `Reader.ScaleReader.AppendLog` | app/hx711_reader.py:461-465 | the entry joins the log, which evicts its oldest entry beyond 2000 |
| `Reader.ScaleReader.GetSerialLog` | app/hx711_reader.py:172-193 | the last min(clamped limit, log size) entries, oldest first |
| `Reader.ScaleReader.EmitIdleEvent` | app/hx711_reader.py:294-307 | the clock and the log move as `IdleStep` says, and the samples and calibration stay |
| `Reader.ScaleReader.HandleFrame` | app/hx711_reader.py:209-242 | blank text (an empty read included) is an idle event: only the idle clock moves and a silence report is logged when due; other text notes arrival, and an unparsed frame is logged alone, a parsed one updates the samples and is logged, and a failing update logs a parse error instead, each leaving every other sample field as it was |
| `Reader.ScaleReader.HandleText` | app/hx711_reader.py:220-242 | arrival is noted; an unparsed frame is logged alone; a parsed one updates the samples and is logged; a failing update logs a parse error; outside a successful update the samples change only in their arrival time |
| `Filters.Truncate` | app/filters.py:21 | `int()` truncates toward zero |
| `Filters.MedianWindowLength` | app/filters.py:12-13 | the median window is odd: an even length gets one more slot |
| `Filters.RecentWindowLength` | app/filters.py:21 | the recent window is max(10, int(sample_hz × 1.5)): ten below 11 samples per one and a half seconds, otherwise the whole part of sample_hz × 1.5 |
| `Filters.TrackingStep` | app/filters.py:35 | the step is −rate for a positive output, +rate for a negative one, 0 at zero |
| `Filters.Step` | app/filters.py:23-38 | both windows stay within their capacities |
| `Filters.StepBuffers` | app/filters.py:26-31 | the median buffer takes input − offset and the recent window takes the new average, each last |
| `Filters.StepAverage` | app/filters.py:28-29 | the average starts at the median and then moves towards each new median, not past it |
| `Filters.NoTrackingUntilFull` | app/filters.py:31-32 | before the recent window fills, the offset stays and the output is the average |
| `Filters.StepTracking` | app/filters.py:32-38 | the offset moves by one step exactly when the window is full, the output is inside the gate and the spread is below the limit; otherwise the output is the average |
| `Filters.TrackingMovesAwayFromZero` | app/filters.py:35-37 | a tracking step makes the output's magnitude grow by the rate and moves the offset the same way |
| `Filters.DriftFilter.constructor` | app/filters.py:8-21 | the settings are the odd median length and the recent length from the sample rate, with empty state |
| `Filters.DriftFilter.Update` | app/filters.py:23-38 | bypass returns the input and keeps the state; otherwise state and output are one `Step` |
| `Filters.DriftFilter.Reset` | app/filters.py:40-43 | both windows are empty, there is no average and the offset is 0 |
| `Station.SeedVariants` | app/main.py:62-71 | ids 1 to 4, all in grams, enabled, with a lower limit below the upper |
| `Station.InRangeInclusive` | app/main.py:165 | both limits pass and nothing outside them does |
| `Station.NextId` | app/main.py:166-168 | a new row's id is at least 1 and exceeds every id already in its table |
| `Station.LatestCalibration` | app/main.py:55 | the row with the largest id, none exactly when there are no rows |
| `Station.StartupCalibration` | app/main.py:54-59 | offset 0 and factor 1 without rows; otherwise the offset and factor of the stored row with the greatest id |
| `Station.LatestOfAppended` | app/main.py:55 | a row appended with the next id is the latest |
| `Station.CommitOutcome` | app/main.py:150-172 | blank serial 400, then used serial 409, then unknown variant 404; otherwise the stripped serial with the latest weight as gross and net, its counts, the inclusive range check and a fresh id |
| `Station.CommitKeepsSerialsUnique` | app/main.py:156-168 | a successful commit keeps serials unique and adds a new id |
| `Station.StatsOf` | app/main.py:181-183 | total is pass plus fail |
| `Station.StatsTotalIsSelected` | app/main.py:179-183 | the total is the number of selected events, all events when the variant is absent or 0 |
| `Station.StatsAfterAppend` | app/main.py:165-183 | a new event adds one to the pass or fail count of each view that selects it and changes no other |
| `Station.KnownMassOutcome` | app/main.py:123-134 | mass ≤ 0 is 422, a failed read not ready, counts equal to the offset 400; otherwise the factor times the mass is the counts above the offset |
| `Station.TareZeroes` | app/main.py:116-120 | a tare keeps the factor's magnitude, sets the sign to +1 and makes the tare counts read as zero grams |
| `Station.KnownMassReadsBack` | app/main.py:125-133 | after a known-mass calibration its counts read as the mass |
| `Station.TareAsWritten` | app/main.py:116-118 | as written, a successful read is followed by a lookup of `scale_factor` that decides success |
| `Station.KnownMassAsWritten` | app/main.py:125-126 | as written, a successful read is followed by a lookup of `zero_offset`, which fails when absent |
| `Station.CalibrationHandlersAsWrittenFail` | app/main.py:118 | the reader has neither attribute, so both handlers as written always fail, where the intended ones succeed |
| `Station.WeighStation.Startup` | app/main.py:53-71 | the reader takes the latest row's calibration (or 0 and 1), and an empty variant table is seeded |
| `Station.WeighStation.Commit` | app/main.py:150-172 | the answer is `CommitOutcome`; success appends exactly that event, failure changes nothing |
| `Station.WeighStation.GetStats` | app/main.py:175-183 | the counts are `StatsOf`, and the total counts the selected events |
| `Station.WeighStation.Tare` | app/main.py:114-121 | a failed read changes nothing; otherwise a tare row is appended and the reader is set to the counts with the stored factor |
| `Station.WeighStation.CalibrateWithKnown` | app/main.py:123-134 | the answer is `KnownMassOutcome`; success appends a row and sets the factor while keeping the offset; failure changes nothing |
| `Station.WeighStation.DeleteAllEvents` | app/main.py:207-214 | without "DELETE" nothing changes (400); with it no events remain |
| `Station.WeighStation.FactoryReset` | app/main.py:216-232 | without "RESET" nothing changes (400); with it no events or calibrations remain and exactly the four seeded variants |

## Left out

- Serial I/O, the reader thread and its locks are not modelled: opening and resetting the port, `read_until` and `start`/`stop`. One pass of the loop on a read line is `HandleFrame`; the backoff is `RunBackoff`.
- The "Serial exception" log entry written when a read fails is not modelled; `RunBackoff` models only the backoff and the sleep of that path.
- Display rounding of `latest.g` (`round(round(v/p)*p, 3)`) is not modelled: the model reports the moving average itself, because the rounding is float-specific.
- Numbers are exact reals. IEEE rounding of `float()` parsing and of arithmetic is not modelled.
- The web layer is not modelled: the WebSocket feed, HTML pages, CSV export, health, variant CRUD, and the SQLAlchemy session. The tables are sequences and a map.
- The race between the duplicate-serial lookup and the insert of concurrent commits is not modelled, because it is a concurrency concern.
- `_coerce_terminator`, `_env_float` and `_env_int` are not modelled: they wrap Python's codec and numeric parsing.
- ISO timestamp formatting in `get_serial_log` is not modelled: a log view carries the timestamp as a number (none for 0).
- `read_latest`'s copy of the dict is not modelled: `Commit` reads the reader's `latest` directly.
- Whitespace and case are ASCII: `Strip` removes codes 9-13 and 28-32, not the other Unicode spaces `str.strip` also removes, and `Lower`/`Upper` change only A-Z and a-z. This applies to a serial (app/main.py:152), to the environment flags and serial settings (app/hx711_reader.py:18, 478, 491, 510) and to the frame's tokens and units.
- `Filters.DriftFilter.constructor`: requires a non-negative `median_n` outside bypass mode, because `deque(maxlen=…)` raises `ValueError` for a negative length; that error is not modelled.
- Request timestamps (`datetime.utcnow`) and calibration rows' `created_at` are not modelled: an event takes `now`, and calibration rows carry none.
- `Station.WeighStation.Tare`: follows the intended handler, with the stored factor's magnitude in place of the missing `reader.scale_factor`. The tare therefore sets the sign to +1 (`Station.TareZeroes`).
- `Station.WeighStation.CalibrateWithKnown`: follows the intended handler, with the stored offset in place of the missing `reader.zero_offset`.
- `Frame.ExtractGrams` carries no contract of its own; its stage order is stated by `Frame.ExtractGramsPriority`, `Frame.NetWithoutUnitIsKilograms` and `Frame.FallbackIsFirstPlausible`.

## Findings

| source | as written | input that shows it | evidently intended | confidence | as-written member | corrected member |
|---|---|---|---|---|---|---|
| app/main.py:114-134 | `tare` and `calibrate_with_known` read `reader.scale_factor` and `reader.zero_offset`, which `ScaleReader` does not define (it keeps `_scale_factor` and `_zero_offset`), so each raises `AttributeError` (a 500) after every successful read | fresh counts 1000 with offset 0: tare fails on `scale_factor`; a 100 g calibration fails on `zero_offset` instead of giving factor 10 | read the stored calibration (`get_calibration`) and proceed | not executed | `Station.CalibrationHandlersAsWrittenFail` | `Station.WeighStation.Tare`, `Station.WeighStation.CalibrateWithKnown` |
