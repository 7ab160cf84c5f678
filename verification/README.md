# Verified model of iotic

This project models the computations and step machines of the iotic home energy server and of its web client, and
proves what they are for. `dafny verify dfyconfig.toml` checks everything.

- **Archive pipeline.** `Downsampling`, `Delta`, `Cbor`, `CborListener` (server), `CborReader` (web client) and their
  composition: a raw day becomes byte strings and then charts. `TwoStage`, `ReadBack`, `CborWire`, `Archive` and
  `ArchiveTheorem` hold the proofs, ending in `ArchiveTheorem.EndToEnd`.
- **Database.** `MapNames`, `Recorder` and `Database`: change-only recording, day scans, archives computed on
  demand. `RecordingTheorems` says exactly what change-only recording loses; `DatabaseTheorems` follows a series over
  whole runs, up to the chart the client draws, and `LatePuts` adds measurements that arrive after their day.
- **CoAP codec.** `Coap` with a grammar of options between bytes and messages, `CoapTheorems`, and `CoapWire` for the
  bytes themselves.
- **Power scheduler.** `PowerManager` runs arbitrary strategies (a state with three operations);
  `PowerManagerTheorems` proves arbitration, debounce and a general invariant rule once for all of them.
  `MultiPhase`, `Wallbox` and `Rule` are the three strategies, `Repository` their list, `Shelly` the relay device.
  `PowerSystem` and `PowerSystemTheorems` put them together, `StrategyLaws` says in measured values when each of them
  asks and what it then does, and what that means for runs, `RelayDevices` closes the loop through the device, and
  `PriorityRuns` and `SystemRuns` let strategies come and go.
- **Site history and charts.** `SiteHistory` (server and client side of the range query), `SiteService`,
  `HistoryPath`, which joins them, and `ChartContents`, which says what the charts hold after a run.
- **Shared.** `Words` (fixed-width integers), `OrderedMap` (rows in key order), `Lists` (running sums, differences,
  binary search), `Choice` (elements by position), `Spacing` (events with a minimum distance), `ModArith`, `RealArith`.

Code that loops or changes fields is a method or a class here, tied by its `ensures` to a function on values; the
lemmas are about that function.

## Assumptions and idealisations

- `int16_t`, `uint16_t` and `uint32_t` arithmetic wraps explicitly, and the client's shifts keep 32 bits, as in its
  web build. Other integers are mathematical: `int` energies, timestamps and the client's running sums are assumed not
  to overflow.
- Doubles are reals. Sums of int16 samples are whole numbers that a double represents exactly.
- `std::map` and an mdbx table with ordinal keys are sequences of rows in ascending key order; a scan starts at the
  first key not below the given one. Days are numbers counted from 1970, and the clock is a parameter.
- The CBOR library is modelled by RFC 8949, section 3.1 (major types 0, 1 and 4) in the shortest form of
  section 4.2.1; the archive is a sequence of top-level arrays in the sense of RFC 8742.
- `std::list::sort` is stable, as the C++ standard requires, and is modelled by insertion.
- Datapoints of one day have equally many components. With unequal ones the source can index out of bounds.
- Reported relay states are part of each sample in `PowerSystem`. `PowerSystem.TrustedAlong` asks them to agree with the
  commanded ones at the two phases the guards look at, and only in samples past the shorter debounce time.
  `RelayDevices` discharges this for devices that apply each request before the next sample and report their relays;
  `MultiPhaseTheorems.StepKeepsCircularIff` and `MultiPhaseEnergy.EnergyConserved` say exactly what happens without it.
- `wantsToStepDown` and `wantsToStepUp` are `const` but change mutable fields; they are modelled as changing them,
  in call order.
- Requests to a Shelly relay are taken to be applied, and its reports to be current.

## Where the code differs from what is said about it

- `encode` computes a sorted copy of the options and then walks the unsorted ones (`src/coap/CoapMessage.cpp:135-139`).
  The model does the same: its own decoder still reads options in any order (`CoapTheorems.RoundTripIff`), but the wire
  follows RFC 7252 only for options that were already sorted (`CoapTheorems.WireOrderIff`).
- `decode` fills `optionsMap` only, so a decoded message cannot be encoded again with its options
  (`CoapTheorems.ReencodeIff`). It accepts tokens of 9 to 12 bytes and a marker without payload, beyond RFC 7252
  section 3.
- The comment at `src/strategies/StrategyRepository.cpp:20` says lowest priority first; the comparator puts the highest
  first.
- The archived chart shows 0 after the last changed slot, because repeats are dropped (`ArchiveTheorem.ChartTail`).
- At the first offset, which stands for "off", a step down always leads to 0 phases, but a step up still looks at the
  power: a charger that waits or charges swings without end once measured power less grid power exceeds 32768 W plus
  hysteresis plus 6 A, on one phase or on three (`Wallbox.StableIffCalm`, `Wallbox.OffSwings`).
- The archive of a day is the archive of what was recorded on it. A value that only repeats the one before, such as one
  held over midnight, is not recorded and missing from the day (`DatabaseTheorems.AnswerTellsAllIff`,
  `DatabaseTheorems.HeldOverMidnight`), so the chart shows 0 until the first change.
- After a restart an empty datapoint is taken for the unset cache and not recorded; `RecordingTheorems.RecordingRefines`
  says when that shows.
- On the last day of 32-bit seconds nothing can be read or erased (`Recorder.LastDayUnseen`).

## Model

| member | source | states |
|---|---|---|
| ArchiveTheorem.EndToEnd | src/database/ArchiveDayUseCase.cpp:18-25 | End to end at 5 minutes: for every day of uniform width the web client decodes the archived bytes without error, and its charts show 10 times the last bucket at or before each of the 288 slots, from the first bucket to the last changed one and 0 elsewhere, if and only if consecutive buckets differ by what an int16 holds |
| ArchiveTheorem.WrappedDay | src/database/DatabaseUtil.cpp:59-63 | A concrete day (a step of 400 kW) whose charts are wrong because the int16 delta wraps |
| ArchiveTheorem.BucketsInSlots | src/webapp/lib/io/cbor_decoder.dart:36-38 | Every bucket of a day's samples at 300 s falls into the 288 slots that start at the client's day start |
| ArchiveTheorem.DecodedCharts | src/webapp/lib/io/cbor_decoder.dart:4-68 | For any valid bucket list inside one day, the reader returns one chart per component and all are right if and only if no step between change points wraps |
| ArchiveTheorem.ColumnIff | src/webapp/lib/io/cbor_decoder.dart:42-65 | The chart of one component is right in all slots if and only if every step of that component fits an int16 |
| ArchiveTheorem.ChartRightIffPointsRight | src/webapp/lib/io/cbor_decoder.dart:47-62 | The slot loop shows a given step function in all 288 slots if and only if the decoded points are the points of that function |
| ArchiveTheorem.ChartTail | src/database/DatabaseUtil.cpp:64-66 | The tail that compression drops, seen in the decoded chart: where no step wraps, the chart follows the buckets up to the last one if and only if the last bucket is itself a change or its value is 0 |
| Archive.ArchiveDay | src/database/ArchiveDayUseCase.cpp:18-20 | The composition of the three passes as executed computes the bytes the theorems speak about |
| Archive.CompressedSteps | src/database/DatabaseUtil.cpp:46-75 | The delta list is exactly the list of differences between consecutive change points |
| Archive.ColumnSums | src/webapp/lib/io/cbor_decoder.dart:23-26 | Running sums of a delta column are exact up to a row if and only if no step up to that row wrapped |
| Archive.TimestampSums | src/webapp/lib/io/cbor_decoder.dart:23-26 | Running sums of the delta timestamps give back the keys of the change points |
| Archive.SpotsShow | src/webapp/lib/io/cbor_decoder.dart:50-62 | The slot loop with its source index traces the step function through the points, with 0 before the first and after the last |
| Archive.ExpectedShows | src/webapp/lib/io/cbor_decoder.dart:50-62 | What a chart should show (the held bucket value) is the step function through the change points |
| Downsampling.Downsample | src/database/DatabaseUtil.cpp:12-44 | The two loops over buckets compute the averaged dataset the lemmas describe, whose every value RowIsNearest fixes |
| Downsampling.FillBuckets | src/database/DatabaseUtil.cpp:13-18 | The first loop files every sample under its bucket number, in order |
| Downsampling.AverageOf | src/database/DatabaseUtil.cpp:24-38 | The sum loop with its per-component accumulators gives the mean of every component in the unit, rounded to the nearest integer with halves away from zero (stated in whole numbers) |
| Downsampling.BucketsCharacterised | src/database/DatabaseUtil.cpp:13-18 | There is one bucket for every number that occurs, holding exactly its samples in order |
| Downsampling.DownsampledKeys | src/database/DatabaseUtil.cpp:21-43 | Downsampling yields one ascending row per occupied bucket, of the same width, and an empty result only for an empty input |
| Downsampling.DownsampleBounds | src/database/DatabaseUtil.cpp:34-38 | Each component is within 1/2 of the mean of its bucket and, at 10 W, between the smallest and the largest sample |
| Downsampling.RowIsNearest | src/database/DatabaseUtil.cpp:24-38 | Exactly and in whole numbers: with total t over n samples and u units of 10 W, the value of a row is the one v with 2nuv - nu <= 2t < 2nuv + nu for t >= 0, and the mirrored bounds for t < 0, so halves go away from zero |
| Downsampling.BucketIsChoice | src/database/DatabaseUtil.cpp:13-18 | The bucket of k, sample by sample: the values of all samples whose time divided by the divisor is k and of no others, in ascending order of position |
| Downsampling.MeanFits | src/database/DatabaseUtil.cpp:37 | The cast of the rounded mean to int16 never loses anything |
| TwoStage.TwoStageKeys | src/database/DatabaseUtil.cpp:16 | Downsampling by a and then by b yields the same bucket numbers as downsampling by a*b |
| TwoStage.TwoStageDownsampling | src/database/DatabaseUtil.cpp:12-44 | In two stages or at once: same keys, and values that differ by at most 1 when all inner buckets hold equally many samples |
| TwoStage.GroupingConserves | src/database/DatabaseUtil.cpp:15-18 | Regrouping fine buckets into coarse ones loses and duplicates no sample (totals and counts agree) |
| Delta.DeltaCompress | src/database/DatabaseUtil.cpp:46-75 | The loop with its last timestamp and last datapoint computes the delta list of the lemmas, wrap-around included |
| Delta.DeltaDecompress | src/database/DatabaseUtil.cpp:77-101 | The loop with its running timestamp and value computes the dataset of the lemmas |
| Delta.CompressionRoundTrip | src/database/DatabaseUtil.cpp:46-101 | Decompressing a compressed dataset gives exactly its change points, even where int16 subtraction wraps |
| Delta.CompressionKeepsMeaning | src/database/DatabaseUtil.cpp:46-101 | Sample and hold over the round trip equals sample and hold over the original at every time |
| Delta.CompressionIdempotent | src/database/DatabaseUtil.cpp:46-101 | Compressing the decompressed result again yields the same delta list |
| Delta.ChangePointsMeaning | src/database/DatabaseUtil.cpp:53-71 | Membership: a row is kept if and only if it is the first or its value differs from the row before it |
| Cbor.CborEncode | src/database/DatabaseUtil.cpp:103-126 | The encoder loops write the timestamp array followed by one array per component, in the shortest form of RFC 8949 |
| Cbor.WriteArray | src/database/DatabaseUtil.cpp:112-115 | One array: its head and then its integers |
| CborListener.CborDecode | src/database/DatabaseUtil.cpp:128-203 | Feeding the listener item by item and transposing its columns gives the dataset of the automaton |
| CborListener.Listener.OnInteger | src/database/DatabaseUtil.cpp:139-148 | An integer goes to the timestamps or to the last column, narrowed to its type, depending on the phase |
| CborListener.Listener.OnArray | src/database/DatabaseUtil.cpp:153-168 | The first array opens the timestamps, every further one a new column |
| CborListener.ListenerRebuilds | src/database/DatabaseUtil.cpp:103-203 | Fed the items that the encoder writes, the automaton rebuilds the identical dataset, for timestamps below 2^31 |
| CborReader.DecodeArchivedData | src/webapp/lib/io/cbor_decoder.dart:4-68 | The client reader as executed, with every malformed input ending in its error, computes the charts of the theorems |
| CborReader.ParseArrays | src/webapp/lib/io/cbor_decoder.dart:10-29 | The outer loop over arrays, advancing one offset, with the first error ending it |
| CborReader.ParseArray | src/webapp/lib/io/cbor_decoder.dart:11-26 | One array: major type check, length, integers, running sums |
| CborReader.FillList | src/webapp/lib/io/cbor_decoder.dart:16-26 | Reads the integers of an array and then undoes the deltas in place |
| CborReader.ParseInt | src/webapp/lib/io/cbor_decoder.dart:95-119 | One integer of major type 0 or 1 with its 0, 1, 2, 4 or 8 argument bytes; everything else is an error |
| CborReader.ReadArgument | src/webapp/lib/io/cbor_decoder.dart:71-79 | Big-endian argument bytes with the 32-bit shifts of the web build, or an error past the end |
| CborReader.FillSpots | src/webapp/lib/io/cbor_decoder.dart:44-62 | The 288-slot loop with its source index and last value |
| ReadBack.ReaderUndoesWriter | src/database/DatabaseUtil.cpp:103-126 | Parser undoes printer, byte for byte: the client reader consumes all bytes the encoder wrote and recovers the running sums of the timestamps and of every component |
| ReadBack.ReadArrayBack | src/webapp/lib/io/cbor_decoder.dart:11-26 | Wherever an encoded array stands in the bytes, the reader consumes exactly its bytes and returns its running sums |
| ReadBack.ReadIntBack | src/webapp/lib/io/cbor_decoder.dart:95-119 | Wherever an encoded integer stands, the reader returns it and the offset right behind it |
| CborWire.HeadOnWire | src/database/DatabaseUtil.cpp:103-126 | A written head: major type and additional information in the first byte, and the argument in the fewest big-endian bytes that hold it (RFC 8949, sections 3 and 4.2.1) |
| CborWire.IntegerOnWire | src/database/DatabaseUtil.cpp:112-121 | A written integer has major type 0 and is its argument, or major type 1 and is -1 less its argument |
| CborWire.ReadIntIff | src/webapp/lib/io/cbor_decoder.dart:95-119 | Exactly what the reader takes for an integer: major type 0 or 1 with an argument of 0, 1, 2, 4 or 8 bytes that is there in full, shortest or not, of which the low 32 bits count |
| Lists.UndoDeltas | src/webapp/lib/io/cbor_decoder.dart:23-26 | In-place accumulation turns a list into its prefix sums |
| MapNames.MapNameInjective | src/database/Database.cpp:163-170 | Different thing, property or resolution never share a table name: raw and archive tables are all distinct, provided property names are identifiers |
| MapNames.NameForm | src/database/Database.cpp:163-170 | The name is thing, dot, property and, for an archive, a dot, the minutes in decimal without leading zero and "min" |
| RecordingTheorems.RecordingRefines | src/database/Database.cpp:35-48 | Change-only recording refines full recording, exactly: for timestamps that do not go back and restarts anywhere, the stored rows hold the same value at every time as all datapoints put, if and only if no put is lost, that is an empty datapoint that meets an unset cache while the table ends with something else, and that no later put of the same second overwrites |
| RecordingTheorems.NothingLostIn | src/database/Database.cpp:37-40 | Runs without a restart, and runs without empty datapoints, lose nothing |
| RecordingTheorems.EmptyAfterRestart | src/database/Database.cpp:37-40 | After every run that ends with a value stored, a restart followed by an empty datapoint makes the two differ |
| RecordingTheorems.DayRecordedIff | src/database/Database.cpp:37-46 | A day of the stored table is that day of everything put if and only if no put of the day repeats the cached value without its row being the last stored one, unless a later put of the same second replaces it |
| RecordingTheorems.DayRepeatsNothingIff | src/database/Database.cpp:37-46 | For increasing timestamps: if and only if no datapoint of the day repeats the one put just before it, restarts counting as an empty one |
| RecordingTheorems.StoredAreChanges | src/database/Database.cpp:37-46 | For increasing timestamps a row is stored if and only if it was put and differs from what was cached |
| Recorder.DaySlices | src/database/Database.cpp:61-79 | For every day before the 32-bit seconds end, a day scan reads one slice holding exactly the rows of that day, and erasing keeps all other rows in place |
| Recorder.OfDayMembers | src/database/Database.cpp:50-85 | A row is read for a day if and only if it is stored and on that day; it survives erasing the day if and only if it is not |
| Recorder.EraseDay | src/database/Database.cpp:172-195 | Erasing a day empties that day and leaves what every other day reads unchanged |
| Recorder.LastDayUnseen | src/database/Database.cpp:61-62 | On the day in which the 32-bit seconds end, the wrapped bound makes reading return nothing and erasing do nothing |
| Recorder.PutDay | src/database/Database.cpp:46 | Writing a row changes the reading of its own day accordingly and of no other day |
| Database.Database.PutDatapoint | src/database/Database.cpp:35-48 | Skips an unchanged value, otherwise caches it and upserts it; no other series and no archive changes |
| Database.Database.RawData | src/database/Database.cpp:50-85 | The scan loop returns exactly the slice of the day |
| Database.Database.EraseRawData | src/database/Database.cpp:172-195 | The erasing scan leaves the table without the day's slice, keeps the cached value, and touches no other series or archive |
| Database.Database.PutArchivedData | src/database/Database.cpp:111-127 | Upserts non-empty data under the day and changes no other archive |
| Database.Database.ArchiveDay | src/database/ArchiveDayUseCase.cpp:8-26 | Does nothing for a day that has not passed, otherwise stores the archive of its raw rows over whatever was stored for the day, unless it is empty |
| Database.Database.ArchivedData | src/database/Database.cpp:282-294 | Lookup, archive on demand, lookup again: the answer is the stored bytes, and only the asked archive can change |
| DatabaseTheorems.AnswerComplete | src/database/Database.cpp:282-294 | At any point of any run with restarts (clock not backwards, no late measurements, only archived days erased) a passed day is answered with the archive of all that was recorded on it, whatever was asked or erased before, and a day that has not passed with nothing |
| DatabaseTheorems.AnswerTellsAllIff | src/database/Database.cpp:282-294 | Against everything put: the rows behind that answer are all that was put on the day if and only if no put of the day is missing in the sense of DayRecordedIff |
| DatabaseTheorems.SilentDayIff | src/database/Database.cpp:282-294 | For increasing timestamps a passed day is answered with nothing if and only if all that was put on it only repeated the cached value |
| DatabaseTheorems.HeldOverMidnight | src/database/Database.cpp:37-40 | A run in which something was put on a day that is answered with nothing: a value held over midnight |
| DatabaseTheorems.ArchiveEmptyIff | src/database/DatabaseUtil.cpp:107-109 | Only a day without rows has an empty archive |
| DatabaseTheorems.AnswerStable | src/database/Database.cpp:286-293 | Once a day has been answered, every later answer in any run is the same |
| LatePuts.LateAnswer | src/database/Database.cpp:282-294 | Over every run, late measurements included: a day is answered with the archive of what was recorded on it before it was archived, or of all that was recorded if it is archived only now |
| LatePuts.LatePutMissingIff | src/database/Database.cpp:282-294 | For increasing timestamps a recorded put of the day is missing from its answer if and only if the day was archived before it |
| LatePuts.LateDayIff | src/database/Database.cpp:282-294 | And the rows behind the answer are all that was recorded on the day if and only if every later put of the day only repeated the cached value |
| DatabaseTheorems.ChartOfRun | src/database/Database.cpp:282-294 | From measurements to chart: the client decodes the answer for a passed day, and its charts follow the buckets of what was recorded on the day if and only if these change by what an int16 holds; and when that is everything put on it |
| DatabaseTheorems.NextKeeps | src/database/ArchiveDayUseCase.cpp:12-25 | One event keeps the invariant: archived days have passed and hold all that was recorded on them, and of other days nothing is erased |
| DatabaseTheorems.RunKept | src/database/ArchiveDayUseCase.cpp:12-25 | The same invariant over every run |
| Coap.Encode | src/coap/CoapMessage.cpp:110-174 | The encoder as executed, appending header, token, options in the given order and payload, produces the bytes of the theorems |
| Coap.EncodeOption | src/coap/CoapMessage.cpp:139-165 | One option: 16-bit delta and length in nibble and extension form, then the value |
| Coap.Decode | src/coap/CoapMessage.cpp:7-108 | The decoder as executed returns the message of the theorems or rejects |
| Coap.DecodeOptions | src/coap/CoapMessage.cpp:36-103 | The option loop, moving through the bytes, files the options of the grammar by number and stops at the marker or the end |
| Coap.DecodeOption | src/coap/CoapMessage.cpp:47-99 | One round of the loop reads exactly one well-formed option or rejects |
| Coap.ParseUndoesPrint | src/coap/CoapMessage.cpp:36-107 | Printing any well-formed options and tail and reading them back gives the same options and tail |
| Coap.PrintUndoesParse | src/coap/CoapMessage.cpp:36-107 | Whatever is accepted, printed again, is what was there: every byte is consumed |
| Coap.NumbersRoundTrip | src/coap/CoapMessage.cpp:138-142 | For options in any order the uint16 wrap of the deltas at encoding cancels at decoding |
| Coap.ByNumberFiles | src/coap/CoapMessage.cpp:96 | The multimap holds, per number, the values in order of arrival |
| CoapWire.FiledInOrder | src/coap/CoapMessage.cpp:96 | By position: under a number stand the values of all options with that number and of no others, in the order of the options |
| CoapWire.HeaderOnWire | src/coap/CoapMessage.cpp:113-132 | The bytes of the header: version, type and token length in the first, then code, message id (higher byte first) and token |
| CoapWire.OptionOnWire | src/coap/CoapMessage.cpp:138-165 | The bytes one more option appends: the distance of its number and its length, modulo 65536, each below 13 in its nibble, below 269 as 13 and one byte, else as 14 and two bytes, then its value |
| CoapWire.PayloadOnWire | src/coap/CoapMessage.cpp:168-171 | A payload appends the marker 0xFF and itself, an empty one nothing |
| CoapWire.LongTokenOnWire | src/coap/CoapMessage.cpp:115-118 | Nothing is written if and only if the token length modulo 256 is above 12 |
| CoapTheorems.DecodeAcceptsReadings | src/coap/CoapMessage.cpp:7-108 | decode accepts a byte string if and only if it is header, token of 0..12 bytes, well-formed options, then nothing or the marker and the rest; and returns what that reading says |
| CoapTheorems.ReadingUnique | src/coap/CoapMessage.cpp:7-108 | No byte string has two readings |
| CoapTheorems.RoundTripIff | src/coap/CoapMessage.cpp:7-174 | decode(encode(m)) recovers header, token, payload and per number all values in order, options in any order, if and only if the version is below 4, the token at most 12 bytes and every value at most 65535 bytes |
| CoapTheorems.LongValueLost | src/coap/CoapMessage.cpp:144 | A value beyond 65535 bytes is never recovered, whatever surrounds it |
| CoapTheorems.NoHeaderIsMarker | src/coap/CoapMessage.cpp:161 | No option header that is written can be read as the payload marker |
| CoapTheorems.ReencodeIff | src/coap/CoapMessage.cpp:91-96 | Encoding a decoded message gives the bytes back if and only if it had no options and no bare marker, since decode fills only the map |
| CoapTheorems.WireOrderIff | src/coap/CoapMessage.cpp:134-142 | A reader that sums deltas without wrapping, as RFC 7252 section 3.1 defines numbers, gets them right if and only if the options were given in ascending order: the sorted copy is not used |
| PowerManager.PowerManager.OnSiteProperties | src/strategies/PowerManager.cpp:24-57 | One sample as executed on the copied list: down scan, up scan, keep loop; a Down only 120 s and an Up only 180 s after the last step |
| PowerManager.PowerManager.StepDown | src/strategies/PowerManager.cpp:28-38 | The reverse scan asks every strategy until one wants to step down and the last step is 120 s ago, adjusts it and removes it from the list |
| PowerManager.PowerManager.StepUp | src/strategies/PowerManager.cpp:41-51 | The forward scan over the remaining list, likewise for a step up after 180 s |
| PowerManager.PowerManager.Modulate | src/strategies/PowerManager.cpp:55-57 | Every strategy still listed receives a keep |
| PowerManagerTheorems.TickMeaning | src/strategies/PowerManager.cpp:25-57 | Arbitration for arbitrary strategies: a Down goes to the last willing one once 120 s have passed since the last step, an Up only then to the first willing one once 180 s have passed; a willing one does step when its time has passed; and every strategy receives exactly the calls this implies |
| PowerManagerTheorems.OneAdjustEach | src/strategies/PowerManager.cpp:25-57 | Every listed strategy receives exactly one adjust per sample |
| PowerManagerTheorems.StepsOfTick | src/strategies/PowerManager.cpp:30-50 | A sample causes at most one step of all strategies together |
| PowerManagerTheorems.RunDebounced | src/strategies/PowerManager.cpp:30-44 | Over every run, with arbitrary sample times, each Down comes at least 120 s and each Up at least 180 s after the step before it |
| PowerManagerTheorems.RunWaits | src/config/ConfigRepository.h:101-102 | The same for each step by its position: an Up is at least 180 s and a Down at least 120 s later than the step before it, the first than the start |
| PowerManagerTheorems.SampleStepsIff | src/strategies/PowerManager.cpp:25-51 | When a sample at the end of any run causes a step: a Down if and only if some strategy wants one and the last step of the run is at least 120 s ago; an Up if and only if none wants a Down, some wants an Up and it is at least 180 s ago; one step at the time of the sample, by a strategy that wants it |
| PowerManagerTheorems.StepsInWindow | src/config/ConfigRepository.h:101-102 | Any window of W seconds holds at most W/120 + 1 steps |
| PowerManagerTheorems.RunKeeps | src/strategies/PowerManager.cpp:25-57 | Whatever the questions and keeps preserve holds in every reachable state of every strategy, if it survives the steps asked for in samples past the shorter debounce time |
| PowerManagerTheorems.TickKeeps | src/strategies/PowerManager.cpp:25-57 | The same for one sample |
| MultiPhase.MultiPhaseStrategy.OnDigitalInput | src/strategies/MultiPhaseStrategy.cpp:42-51 | Edge detector: losing the inputs lowers the limit once |
| MultiPhase.MultiPhaseStrategy.WantsToStepDown | src/strategies/MultiPhaseStrategy.cpp:67-88 | Asks if and only if inputs and reports fit the phases, the next phase is reported on, and the inputs are lost or the site imports; changes nothing |
| MultiPhase.MultiPhaseStrategy.WantsToStepUp | src/strategies/MultiPhaseStrategy.cpp:90-118 | The guard, which may raise the limit as a side effect before counting the phases |
| MultiPhase.MultiPhaseStrategy.DecrementPhaseLimit | src/strategies/MultiPhaseStrategy.cpp:191-199 | Lowers the limit by one and dates the change, never below 0 |
| MultiPhase.MultiPhaseStrategy.IncrementPhaseLimit | src/strategies/MultiPhaseStrategy.cpp:201-215 | Raises the limit by one and dates the change, only after the configured duration and never above the number of phases |
| MultiPhase.MultiPhaseStrategy.TakeStep | src/strategies/MultiPhaseStrategy.cpp:121-140 | Day change and step: the new state, and the pointers that advance around the circle |
| MultiPhase.MultiPhaseStrategy.Adjust | src/strategies/MultiPhaseStrategy.cpp:120-165 | The step, and the published selector, power and energy in thousands of watt minutes |
| MultiPhaseTheorems.StepKeepsCircularIff | src/strategies/MultiPhaseStrategy.cpp:127-140 | Circular order (phases go on in turn, go off in the order they came on, at most n on) survives a Down if and only if its phase is commanded on, an Up if and only if its phase is commanded off |
| MultiPhaseTheorems.OnPhasesAreInterval | src/strategies/MultiPhaseStrategy.cpp:127-140 | In circular order the phases that are on are exactly the interval from the next to go off up to the next to come on |
| MultiPhaseTheorems.FairWear | src/strategies/MultiPhaseStrategy.cpp:135-139 | Lifetime switch-on counts of any two phases differ by at most 1 |
| MultiPhaseTheorems.UpStaysWithinLimit | src/strategies/MultiPhaseStrategy.cpp:107-111 | An Up that was asked for, with reported = commanded, leaves at most the limit of phases on |
| MultiPhaseTheorems.LimitChangeKept | src/strategies/MultiPhaseStrategy.cpp:191-215 | Every change of the limit keeps the history invariant: an increase comes at least the duration after the change before it and is never the first change |
| MultiPhaseTheorems.IncreasesInWindow | src/strategies/MultiPhaseStrategy.cpp:201-215 | With a monotone clock any window holds at most its length divided by the duration, plus 1, increases |
| MultiPhaseEnergy.EnergyConserved | src/strategies/MultiPhaseStrategy.cpp:120-162 | From one adjust to the next, delivered plus running energy grows by the power published before times the elapsed seconds, less the delivered energy at a change of day, if and only if the step finds its phase as the books say |
| MultiPhaseEnergy.StepKeepsEnergyIff | src/strategies/MultiPhaseStrategy.cpp:130-139 | At the moment of a step the total energy is unchanged under exactly the same condition |
| MultiPhaseEnergy.RunningGrows | src/strategies/MultiPhaseStrategy.cpp:154-160 | Between steps the running energy grows by power times time |
| MultiPhaseEnergy.PowerAfterStep | src/strategies/MultiPhaseStrategy.cpp:145-152 | An Up adds the threshold of the phase it switches on to the published power, a Down takes off that of the phase it switches off, and nothing else changes it |
| MultiPhaseEnergy.AllOff | src/strategies/MultiPhaseStrategy.cpp:145-160 | With all phases off there is no power and no running energy |
| MultiPhaseEnergy.AskingKeepsEnergy | src/strategies/MultiPhaseStrategy.cpp:106-111 | Questions and input edges change neither power nor energy |
| PowerSystem.SystemRun | src/strategies/PowerManager.cpp:25-57 | Over every run of the whole system of relays, chargers and rules, with arbitrary samples, clocks, news and reports that can be relied on at the two pointers whenever a step is due: every relay keeps its circular order and its phase limit in 0..n, every charger 0, 1 or 3 phases |
| PowerSystem.GoodIsGuarded | src/strategies/PowerManager.cpp:25-57 | Questions, keeps and news preserve these invariants with any report, and steps do where the report can be relied on |
| PowerSystemTheorems.RunConservesEnergy | src/strategies/MultiPhaseStrategy.cpp:120-162 | Over every run of the whole system, news in between: the energy of a relay is what it was, plus the sum over all samples of power times elapsed seconds, less what the changes of day dropped |
| PowerSystemTheorems.SampleConservesEnergy | src/strategies/PowerManager.cpp:25-57 | The same over one sample, whoever steps |
| PowerSystemTheorems.StepUpStaysWithinLimit | src/strategies/PowerManager.cpp:41-51 | After any sample in which a relay that reports truly stepped up, no more of its phases are on than its limit allows |
| RelayDevices.PolledIsTrusted | src/shelly/ShellyGen2Thing.cpp:30-37 | The assumption on reports discharged: when relays are devices of which each sample sets one relay, start as commanded, and samples come often enough to set a whole device within 120 s, every report can be relied on whenever a step is due, in every run |
| RelayDevices.ReportsAreTrue | src/shelly/ShellyGen2Thing.cpp:30-37 | Moreover the device then reports exactly what is commanded |
| RelayDevices.PolledSystemRun | src/strategies/PowerManager.cpp:25-57 | So every run of the system with such devices keeps circular order, phase limits and charger phases without any assumption on reports |
| RelayDevices.PolledUpWithinLimit | src/strategies/MultiPhaseStrategy.cpp:107-111 | And after any sample in which such a relay stepped up, at most its limit of phases are on |
| RelayDevices.DeviceCatchesUp | src/shelly/ShellyGen2Thing.cpp:30-37 | At every point of such a run each device is as commanded, or has received a call for every gap since a step not later than the last step of all |
| PowerSystemTheorems.LimitRaisesInWindow | src/strategies/MultiPhaseStrategy.cpp:201-215 | In every run with a monotone clock the raises of a relay limit in any window are bounded linearly |
| PowerSystemTheorems.RunKeepsDates | src/strategies/MultiPhaseStrategy.cpp:196-213 | In such a run limit changes are in order of time and none lies in the future |
| PowerSystemTheorems.FreshIsGood | src/strategies/MultiPhaseStrategy.cpp:26-52 | A newly built relay strategy meets the invariants |
| StrategyLaws.RelayAsksDownIff | src/strategies/MultiPhaseStrategy.cpp:67-88 | In the system: a relay asks for a step down if and only if its inputs and reports are there and fit, its next phase is reported on, and its inputs are lost or the long-term grid power is above 0; asking changes nothing |
| StrategyLaws.RelayAsksUpIff | src/strategies/MultiPhaseStrategy.cpp:90-118 | It asks for a step up if and only if they fit, its next phase is reported off and has its input, fewer phases are reported on than the limit, which first goes up by one when its duration is over, and the export exceeds threshold plus hysteresis; and what the question changes |
| StrategyLaws.CountIsNumber | src/strategies/MultiPhaseStrategy.cpp:108 | The count of reported states is the number of phases reported on |
| StrategyLaws.RelayHears | src/strategies/MultiPhaseStrategy.cpp:42-51 | News from the inputs: only the falling edge lowers the limit, by one, when it is above 0, and dates it; nothing else changes but the edge detector |
| StrategyLaws.RelayAdjusts | src/strategies/MultiPhaseStrategy.cpp:120-140 | A step moves the pointer it uses on by one in the circle, records its phase and the day, and leaves limit, inputs and the other pointer alone |
| StrategyLaws.PhasesAfter | src/strategies/MultiPhaseStrategy.cpp:127-140 | Phase by phase: only the phase at the up pointer comes on and notes the time, only the one at the down pointer goes off |
| StrategyLaws.CalendarDay | src/strategies/MultiPhaseStrategy.cpp:121 | The day of a time in seconds: the multiples of 86400, toward zero |
| StrategyLaws.DownHasReason | src/strategies/MultiPhaseStrategy.cpp:67-88 | At any sample that steps a relay down: 120 s have passed, its next phase was reported on, and its inputs were lost or the site imported |
| StrategyLaws.UpHasReason | src/strategies/MultiPhaseStrategy.cpp:90-118 | At any sample that steps a relay up: 180 s have passed, its next phase was off and had its input, and the export exceeded threshold plus hysteresis |
| StrategyLaws.NothingShedWhileExporting | src/strategies/MultiPhaseStrategy.cpp:78-88 | In every run of the whole system in which the site does not import and the inputs of a relay stay on, none of its phases is ever switched off |
| StrategyLaws.NothingAddedWithoutSurplus | src/strategies/MultiPhaseStrategy.cpp:113-115 | In every run in which the site never exports more than a phase takes plus its hysteresis, a relay never switches one on |
| StrategyLaws.NothingDroppedWithinDay | src/strategies/MultiPhaseStrategy.cpp:121-125 | In every run with samples of one calendar day (86400 s) only, a relay knows the day and drops no energy |
| StrategyLaws.EnergyWithinDay | src/strategies/MultiPhaseStrategy.cpp:120-162 | So within a day the energy of a relay is what it was plus the sum over all samples of power times elapsed seconds |
| StrategyLaws.ChargerAsksIff | src/strategies/WallboxStrategy.cpp:68-109 | In the system, by the number of phases: when a charger asks for a step down (first offset, or too little for 6 A on its phases) and when for a step up (waiting or charging, and more than 6 A plus hysteresis on one or three phases), in the measured values |
| StrategyLaws.ChargerDraws | src/strategies/WallboxStrategy.cpp:111-183 | In the system: the phases and the current after an adjust, from offset, measured power and short-term grid power |
| StrategyLaws.SwitchAsksIff | src/rules/RuleActuationStrategy.cpp:94-129 | In the system: when a rule asks, what it latches and what a step sets |
| Wallbox.WallboxStrategy.constructor | src/strategies/WallboxStrategy.cpp:34-41 | The initial controller state and its two configured hysteresis values |
| Wallbox.WallboxStrategy.OnProperties | src/strategies/WallboxStrategy.cpp:47-62 | Takes over the averaged power, the voltages, the offset looked up in the table and the status, each only if it is in the news |
| Wallbox.WallboxStrategy.WantsToStepDown | src/strategies/WallboxStrategy.cpp:68-87 | Computes the next phases without hysteresis, 0 at the first offset, and asks to go down to them |
| Wallbox.WallboxStrategy.WantsToStepUp | src/strategies/WallboxStrategy.cpp:89-109 | Only while waiting or charging: computes the next phases with hysteresis and asks to go up to them |
| Wallbox.WallboxStrategy.Adjust | src/strategies/WallboxStrategy.cpp:111-127 | Takes over the next phases on a step and sets the current: positive offset plus measured power less short-term grid power, divided by the volts of the phases and cut toward zero |
| Wallbox.HysteresisFor | src/config/ConfigRepository.cpp:87-92 | The greater of the absolute value and the percentage rounded to the nearest watt, halves away from zero (stated in whole numbers) |
| Wallbox.PhasesMonotone | src/strategies/WallboxStrategy.cpp:157-168 | More available power never means fewer phases |
| Wallbox.HysteresisCosts | src/strategies/WallboxStrategy.cpp:157-168 | Non-negative hysteresis never means more phases |
| Wallbox.StepsMove | src/strategies/WallboxStrategy.cpp:68-115 | A requested Up strictly raises and a requested Down strictly lowers the phases, which stay 0, 1 or 3 |
| Wallbox.StableIffCalm | src/strategies/WallboxStrategy.cpp:68-115 | In terms of the inputs: for non-negative hysteresis and frozen inputs every run of questions and grants takes at most one step, from any phases, if and only if the offset is not the first of the table, or the status forbids a step up, or measured power less grid power is at most 32768 W plus hysteresis plus 6 A for both one and three phases |
| Wallbox.StableIffSettles | src/strategies/WallboxStrategy.cpp:68-115 | For any hysteresis: if and only if the phases a step up leads to are not more than those a step down keeps |
| Wallbox.HysteresisSettles | src/strategies/WallboxStrategy.cpp:68-97 | That condition holds for non-negative hysteresis and any offset but the first of the table |
| Wallbox.OffSwings | src/strategies/WallboxStrategy.cpp:69-70 | Otherwise it swings without end: for every n some run from some phases takes exactly n steps |
| Wallbox.CommandedPower | src/strategies/WallboxStrategy.cpp:111-183 | Written out: current times volts is the positive offset plus measured power less short-term grid power, cut toward zero by less than one ampere; phases change on a step only, to the next phases; without phases no current; nothing else changes |
| Wallbox.ImportNeverRaises | src/strategies/WallboxStrategy.cpp:122-123 | Of two samples the one that imports more never gets the greater current |
| Wallbox.AsksDownIff | src/strategies/WallboxStrategy.cpp:68-87 | When a step down is asked for, by number of phases, and which next phases are computed, in offset, power and voltages |
| Wallbox.AsksUpIff | src/strategies/WallboxStrategy.cpp:89-109 | The same for a step up, with status and hysteresis |
| Rule.RuleActuationStrategy.WantsToStepDown | src/rules/RuleActuationStrategy.cpp:94-100 | Latches an off request and asks while it differs from the state |
| Rule.RuleActuationStrategy.WantsToStepUp | src/rules/RuleActuationStrategy.cpp:102-108 | Latches an on request and asks while it differs from the state |
| Rule.RuleActuationStrategy.Adjust | src/rules/RuleActuationStrategy.cpp:110-129 | Sets the state on a step and publishes it once there is one |
| Rule.RequestsAreLatched | src/rules/RuleActuationStrategy.cpp:94-122 | Over every run: the latched request is the last expression seen true, the state is the last request that met permission, and the strategy asks exactly when they differ |
| Rule.StepsAlternate | src/rules/RuleActuationStrategy.cpp:94-122 | Granted steps strictly alternate: the thing is never switched to what it already is |
| Repository.StrategyRepository.AddStrategy | src/strategies/StrategyRepository.cpp:17-24 | A stable sort, from whatever order: priorities descend, and the strategies of each priority are those from before in their order, the new one behind them |
| Repository.StrategyRepository.OnThingRemoved | src/strategies/StrategyRepository.cpp:10-14 | Erases every strategy of the thing and keeps the order of the rest |
| Repository.RepositoryRun | src/strategies/StrategyRepository.cpp:10-24 | After every run of adds and removals the list is sorted by descending priority, ties in order of arrival, and holds exactly the strategies whose things were not removed since |
| PriorityRuns.PriorityDecides | src/strategies/PowerManager.cpp:25-57 | At every sample of every run in which strategies are added and removed: a Down goes to the willing strategy of least priority, the latest among equals, an Up only if none is willing to go down and then to the willing one of greatest priority, the earliest among equals, a Down 120 s and an Up 180 s after the last step at the earliest and then for certain; and every listed strategy ends as this implies |
| PriorityRuns.ListIsRepository | src/strategies/StrategyRepository.cpp:10-24 | Through all samples and news the list is the one the adds and removals made, entry by entry |
| PriorityRuns.ListRunDebounced | src/strategies/PowerManager.cpp:30-44 | Steps keep their debounce distance however the list changes in between |
| PriorityRuns.ListRunWaits | src/config/ConfigRepository.h:101-102 | In seconds: an Up at least 180 and a Down at least 120 after the step before it, through all changes of the list |
| PriorityRuns.NewsReachesItsThing | src/strategies/MultiPhaseStrategy.cpp:42-51 | News reaches every listed strategy of its thing and no other |
| PriorityRuns.ListRunKeeps | src/strategies/PowerManager.cpp:25-57 | What the calls of a strategy preserve holds of every listed strategy, through all changes of the list |
| SystemRuns.ListSystemRun | src/strategies/PowerManager.cpp:25-57 | The whole system with strategies that come and go: every listed relay keeps its circular order and phase limit, every listed charger 0, 1 or 3 phases, and the list is sorted by priority |
| Shelly.ShellyGen2Thing.OnSetProperties | src/shelly/ShellyGen2Thing.cpp:30-37 | Fires the request for the relay whose turn it is and advances the pointer |
| Shelly.Converges | src/shelly/ShellyGen2Thing.cpp:30-37 | From any pointer and relay state, n calls with the same vector leave every relay equal to it |
| Shelly.RelayHoldsRecent | src/shelly/ShellyGen2Thing.cpp:30-37 | In any run of at least n calls every relay holds what one of the last n calls commanded for it |
| SiteHistory.SerializeSiteHistory | src/webserver/WebAppRouter.cpp:33-79 | The range query and encoder as executed: nothing for an empty range, otherwise the encoded slice |
| SiteHistory.EncodeInPlace | src/webserver/WebAppRouter.cpp:48-72 | The reverse in-place passes take the differences of the slice |
| SiteHistory.ParseBinary | src/webapp/lib/io/web_socket_service.dart:123-139 | The client decoder overwrites the three lists with their running sums, powers times 10, and fails on an empty power list |
| SiteHistory.RangeSelected | src/webserver/WebAppRouter.cpp:36-42 | For strictly increasing times and from <= to, the query selects exactly the samples before `to` that no later sample at or before `from` supersedes |
| SiteHistory.HistoryRoundTrip | src/webserver/WebAppRouter.cpp:33-79 | The client recovers exactly these samples, with exact timestamps and every power cut toward zero to a multiple of 10 |
| SiteHistory.SamplesShown | src/webserver/WebAppRouter.cpp:33-79 | Sample by sample: the client has the exact time and, for each power, the multiple of 10 next to it on the side of zero |
| SiteHistory.AnswerOnWire | src/webserver/WebAppRouter.cpp:48-72 | What travels: times, and powers cut to units of 10 W, each list as its first value and the differences of neighbours |
| SiteHistory.CutTowardZero | src/webserver/WebAppRouter.cpp:56-57 | What cutting means, on both sides of zero |
| Lists.TakeDifferences | src/webserver/WebAppRouter.cpp:58-72 | Subtracting the predecessor from the back turns a list into its differences in place |
| Lists.FindLowerBound | src/webserver/WebAppRouter.cpp:36-41 | The halving search, also on unsorted lists, finds the position the lemmas speak about |
| Lists.LowerBoundSeparates | src/webapp/lib/site/card/data/site_service.dart:62-78 | On a sorted list the found position separates what precedes the key from what does not |
| SiteService.Add | src/webapp/lib/site/card/data/site_service.dart:59-82 | Two searches, a removal and an insertion splice the new list in, or end in the range error of the removal |
| SiteService.SiteService.RequestSiteDataHistoric | src/webapp/lib/site/card/data/site_service.dart:15-20 | Puts a zero point in front of all three lines |
| SiteService.SiteService.OnHistoric | src/webapp/lib/site/card/data/site_service.dart:24-37 | Builds the three new lists and splices them one after the other |
| SiteService.SiteService.OnLive | src/webapp/lib/site/card/data/site_service.dart:42-46 | Appends one point to each line: pv power, grid power and negated site power at the time of the sample |
| SiteService.SpliceCorrect | src/webapp/lib/site/card/data/site_service.dart:59-82 | For non-descending lists the result is the old points before the new range, the new list, and the old points after it, and it is non-descending |
| SiteService.SpliceTotal | src/webapp/lib/site/card/data/site_service.dart:80 | The removal never fails, even on an unsorted old list, unless the new list ends before it starts |
| SiteService.LinesStayAligned | src/webapp/lib/site/card/data/site_service.dart:15-49 | Over every run of requests, responses and live samples the three lines have the same x everywhere, and site is the sum of pv and grid |
| SiteService.OrderKeptIff | src/webapp/lib/site/card/data/site_service.dart:15-46 | A request keeps the lines sorted if and only if it does not start behind the first point, a live sample if and only if it is not older than the last |
| ChartContents.PointsComeFromEvents | src/webapp/lib/site/card/data/site_service.dart:15-49 | Over every run, however disordered: each point of a line is a request's zero, a live sample's power of that line, or a response's value of that line, at its time |
| ChartContents.EarlierPointsKept | src/webapp/lib/site/card/data/site_service.dart:15-46 | After any run a request puts one zero point in front of each line and a live sample its own point behind, and all earlier points stay |
| ChartContents.ChartsHold | src/webapp/lib/site/card/data/site_service.dart:15-82 | The exact contents: as long as the lines stay sorted, a point stands on a line if and only if some event put it there with the value of that line and no sorted response that came later covers its time |
| HistoryPath.ResponseSpliced | src/webserver/WebAppRouter.cpp:33-79 | The whole path from server history to chart: for ordered lines each line becomes the old points before the first selected sample, the selected samples with powers cut toward zero to tens (site being the sum of the cut powers), and the old points after the last one, and stays ordered |
| HistoryPath.ShownPoints | src/webapp/lib/io/web_socket_service.dart:123-139 | Each selected sample stands on the three lines at its time, with its powers cut to tens and their sum |
| HistoryPath.StaysOrderedIff | src/webapp/lib/site/card/data/site_service.dart:15-49 | All three lines are sorted at every moment of a run if and only if every event keeps the order it finds: a request not behind the first point, a live sample not older than the last, a response that is sorted, or too short to be read, or whose removal is rejected because an existing point lies between its last and its first time |
| HistoryPath.RunXs | src/webapp/lib/site/card/data/site_service.dart:15-49 | Over every run the three lines have the same x coordinates, and each event changes these alike |
| HistoryPath.OrderKeptOnceIff | src/webapp/lib/site/card/data/site_service.dart:59-82 | The same condition for one event of any kind |
| HistoryPath.UnsortedSplice | src/webapp/lib/site/card/data/site_service.dart:80-81 | An unsorted response is rejected by the removal if and only if an existing point lies between its last and its first time; otherwise it leaves the line unsorted |

## Left out

- Sockets, discovery, mDNS, Modbus, HTTP and WebSocket handling: their events are arbitrary inputs here.
- Transactions, map handles, the handle cache and scan errors of mdbx; a stored string view that outlives its
  transaction is modelled as the bytes it showed.
- The conversion of a live measurement to units of 10 W (`src/database/Database.cpp:206-215`): datapoints arrive as
  int16 values here.
- The exponential averages of site and wallbox power (`ema`): any real may arrive as a measurement.
- tinyexpr parsing and the rule engine's subscriptions: the two expressions of a rule are arbitrary booleans here.
- Conversion between calendar dates and day numbers, dates before 1970, and days whose 32-bit seconds have wrapped
  past `Recorder.LAST_DAY + 1`.
- Signed overflow, and calls the source leaves undefined: a time divisor or resolution of 0, fewer than 10 watts per
  unit, unequal widths, an empty site history, a range that ends before it starts, a voltage sum of 0, a selector
  shorter than the relay pointer.
- TOML configuration, logging, command line, JSON, user interface, `CoreLinkDocument`, `StatsDaily`, `ThingInfo` and date
  parsing: small claims only.
- `PowerManager` holds the states of its strategies as values: two list entries that share one strategy object are not
  captured. What a strategy publishes is returned from its own class, not routed back through the thing repository.
- The publication of countdown, log lines and the JSON descriptions of strategies.
- TwoStage.TwoStageDownsampling: values are compared only when all inner buckets hold equally many samples; otherwise the
  two results are different averages.
