# State child-poverty census pipeline, in Dafny

This project models the core of a two-program census pipeline.

- **CensusAnalyzer** reads fixed-width district lines of a census bureau file. It parses each line into a `StateCensus` object and aggregates the districts per state into a 60-slot array. It then writes the occupied slots to a binary file.
- **CensusDataOutputReport** reads that binary file back, up to a record limit. It treats the end of the stream as a quiet stop.

The modules follow the source:

| module | file | models |
|---|---|---|
| `Wrappers` | wrappers.dfy | `Option`, `Result` and `Outcome` (a Java `void` method that may throw) |
| `Exceptions` | exceptions.dfy | the exceptions the core throws: `InvalidArgumentException(total, child, poverty)`, `NumberFormatException`, `StringIndexOutOfBoundsException`, `ArrayIndexOutOfBoundsException` |
| `JavaText` | java_text.dfy | `String.substring`, `String.trim` and `Integer.parseInt`, as the parser uses them |
| `DataIO` | data_io.dfy | the byte layouts of `DataOutput.writeInt`/`readInt` (four big-endian two's-complement bytes) and of an 8-byte `double` |
| `Census` | state_census.dfy | the `StateCensus` class: its four `int` fields, the guarded setters, `populationIncrementer`, `parse` and the `StateCensus(String)` constructor |
| `RecordFormat` | record_format.dfy | the per-record layout of the binary file |
| `CensusAnalyzer` | census_analyzer.dfy | `readCensusData` (in place, on an `array<StateCensus?>` of 60 slots) and `writeDataToFile` |
| `CensusDataOutputReport` | census_report.dfy | the record-reading loop of `generateReport` |

How the model is built:

- **StateCensus.** It is a `class` whose methods change its fields. Each method is proved against a value-level specification on the datatype `Record`:
  - `WithChild` and `WithPoverty` specify the guarded setters;
  - `Increment` specifies `populationIncrementer`;
  - `ParseRecord` specifies `parse`.

  `StateCensus.Parse` goes through the setters of a fresh object, as the source does.
- **readCensusData.** `ReadCensusData` fills a 60-slot array in place. Its loop is proved against `Aggregate`, a left fold of `Step` over the lines read. `AggregateIsSummary` then proves that fold equal to an independent reference definition, `Summary`: one record per distinct state code, in first-occurrence order, holding that code's sums. The same lemma states exactly when the read fails.
- **writeDataToFile.** `WriteDataToFile` is proved against `EncodeRecords`.
- **generateReport.** `GenerateReport` is proved against `Report`. `ReportOfEncoding` closes the round trip between the writer and the reader.

**Record size.** The code writes four `int`s and one `double` per record (CensusAnalyzer.java:231-235). That is 24 bytes, which the model uses (`RecordSize`).

**Inputs and outputs as values:**
- the text file is a `seq<string>` of lines;
- the binary file is a `seq<Byte>`;
- the read limit is the `int` argument;
- nothing is printed; `GenerateReport` returns the rows it would print.

**The percentage.** The child-poverty percentage written after the four `int`s is a Java `double` computed by division. The model gives it as a parameter function `percent: Record -> Bits64`, the 64-bit pattern written for a record. The reader keeps it as those 64 bits.

## Model

| member | source | states |
|---|---|---|
| JavaText.Substring | StateCensus.java:232-235 | `substring(begin, end)` succeeds exactly when 0 <= begin <= end <= length; it then has end - begin characters; otherwise the error is StringIndexOutOfBounds carrying begin, end and the length |
| JavaText.Trim | StateCensus.java:232-235 | `trim` never lengthens the text, and a non-empty result starts and ends with a non-blank character |
| JavaText.TrimPadded | StateCensus.java:232-235 | trimming removes exactly the blank padding around a text whose ends are non-blank |
| JavaText.ParseInt | StateCensus.java:232-235 | `Integer.parseInt` returns only values in the `int` range, and every failure is a NumberFormatException carrying the text |
| JavaText.ParseIntDecimal | StateCensus.java:232-235 | `Integer.parseInt` reads back the decimal rendering of every non-negative `int` |
| JavaText.DecimalWidth | StateCensus.java:233-235 | a number below 10^w fits a w-character column |
| JavaText.PadLeftDecimalField | StateCensus.java:233-235 | a right-aligned decimal column trims and parses back to its number |
| DataIO.UnsignedBigEndian | CensusAnalyzer.java:231-234 | n big-endian base-256 bytes read back any number below 256^n |
| DataIO.BigEndianUnsigned | CensusDataOutputReport.java:111 | every byte string is the big-endian rendering of the number it reads as |
| DataIO.IntBytes | CensusAnalyzer.java:231-234 | `writeInt` emits exactly four bytes; `IntRoundTrip` and `IntBytesRoundTrip` pin down which |
| DataIO.IntOfBytes | CensusDataOutputReport.java:111 | `readInt` always yields a value in the `int` range |
| DataIO.IntRoundTrip | CensusAnalyzer.java:231-234 | `readInt` of the four bytes `writeInt` produces for an `int` is that `int` |
| DataIO.IntBytesRoundTrip | CensusDataOutputReport.java:111 | any four bytes are what `writeInt` produces for the value `readInt` reads from them |
| DataIO.LongRoundTrip | CensusAnalyzer.java:235 | the 8-byte payload reads back as the 64-bit pattern that was written |
| DataIO.LongBytes | CensusAnalyzer.java:235 | `writeDouble` emits exactly eight bytes |
| DataIO.LongOfBytes | CensusDataOutputReport.java:111 | `readDouble` returns the 64-bit pattern whose eight written bytes are the ones it read |
| DataIO.LongBytesRoundTrip | CensusDataOutputReport.java:111 | any 8 bytes are the rendering of the 64-bit pattern read from them |
| Census.WithChild | StateCensus.java:121-132 | `setChildPopulation` succeeds exactly when the new child count is at most the total, then changes only the child count; otherwise the error carries (total, new child, poverty) |
| Census.WithPoverty | StateCensus.java:158-169 | `setChildPovertyPopulation` succeeds exactly when the new poverty count is at most the child count, then changes only the poverty count; otherwise the error carries (total, child, new poverty) |
| Census.Increment | StateCensus.java:181-189 | a successful `populationIncrementer` keeps the state code and leaves child <= total and poverty <= child |
| Census.Field | StateCensus.java:232-235 | a field reads only inside the line and yields an `int`; a column outside the line is a StringIndexOutOfBounds error carrying begin, end and length; otherwise a failure is a NumberFormat error carrying the trimmed text |
| Census.IncrementOutcome | StateCensus.java:181-189 | `populationIncrementer` succeeds exactly when child + dc <= total + dt and poverty + dp <= child + dc, and then yields the three sums with the code unchanged; a failed child check reports (total + dt, child + dc, old poverty); a failed poverty check reports (total + dt, child + dc, poverty + dp) |
| Census.IncrementSample | StateCensus.java:325-337 | the unit test: adding (1, 2, 3) to (31754, 6475, 733) gives (31755, 6477, 736) |
| Census.ParseRecord | StateCensus.java:225-238 | every record `parse` returns satisfies child <= total and poverty <= child |
| Census.ParseRecordSucceeds | StateCensus.java:225-238 | `parse` succeeds exactly on lines of at least 108 characters whose four columns [0,2), [82,90), [91,99), [100,108) trim and convert to `int`s with child <= total and poverty <= child, and it then returns those four values |
| Census.ParseRecordOfFields | StateCensus.java:225-238 | four converting columns that satisfy containment are exactly the record `parse` returns |
| Census.ParseRejectsChildOverTotal | StateCensus.java:232-234 | a child column above the total column is rejected with InvalidArgument(total, child, 0), before the poverty column is read |
| Census.ParseRejectsPovertyOverChild | StateCensus.java:232-235 | a poverty column above an admissible child column is rejected with InvalidArgument(total, child, poverty) |
| Census.ParseSampleLine | StateCensus.java:288-300 | the unit test: the Alabaster City School District line parses to (1, 31754, 6475, 733) |
| Census.MergeContained | StateCensus.java:186-188 | incrementing a record that satisfies containment by another such record never trips a setter guard; the result is the field sums and satisfies containment again |
| Census.ParseFormatLine | StateCensus.java:225-238 | every non-negative record that satisfies containment and fits the column widths, laid out in the bureau's columns, parses back to itself |
| Census.StateCensus.constructor | StateCensus.java:42-43 | the default constructor leaves every field zero |
| Census.StateCensus.SetStateCode | StateCensus.java:65-69 | accepts any code and changes no other field |
| Census.StateCensus.SetTotalPopulation | StateCensus.java:90-94 | accepts any total, even one below the child population, and changes no other field |
| Census.StateCensus.SetChildPopulation | StateCensus.java:121-132 | fails exactly when child > total, with (total, child, current poverty), leaving the object unchanged; otherwise sets only the child population, without re-checking poverty |
| Census.StateCensus.SetChildPovertyPopulation | StateCensus.java:158-169 | fails exactly when poverty > child, with (total, child, poverty), leaving the object unchanged; otherwise sets only the poverty population |
| Census.StateCensus.PopulationIncrementer | StateCensus.java:181-189 | on success the three counts are the old ones plus the deltas and the code is unchanged; on failure the total is already incremented, and the child count too when the poverty check failed; it agrees with `Increment` |
| Census.StateCensus.Parse | StateCensus.java:225-238 | fails exactly when `ParseRecord` does, with its error; otherwise returns a fresh object holding `ParseRecord`'s value |
| Census.StateCensus.FromLine | StateCensus.java:25-36 | the `StateCensus(String)` constructor: the same outcome as `parse`, with the four parsed values copied into a fresh object through setters that cannot fail on them |
| RecordFormat.EncodeRecord | CensusAnalyzer.java:231-235 | one record is 24 bytes |
| RecordFormat.DecodeRecord | CensusDataOutputReport.java:111 | the four `readInt`s of a record always give `int`-sized values |
| RecordFormat.DecodeEncodeRecord | CensusDataOutputReport.java:110-111 | reading four `int`s and a `double` back from a written record gives that record and its percentage bits |
| RecordFormat.EncodeDecodeRecord | CensusAnalyzer.java:231-235 | every 24 bytes are the written form of the row they read as |
| RecordFormat.EncodeRecords | CensusAnalyzer.java:219-236 | the file for n records is 24 n bytes |
| RecordFormat.EncodedRecordAt | CensusAnalyzer.java:219-236 | record i occupies bytes [24 i, 24 i + 24) of the file, in array order |
| CensusAnalyzer.Step | CensusAnalyzer.java:146-176 | a line that does not parse fails with the parse error; a successful pass keeps every existing slot's state code and adds at most one slot, only below 60 slots, holding the parsed record |
| CensusAnalyzer.Aggregate | CensusAnalyzer.java:143-179 | a successful read holds no more accumulators than lines read |
| CensusAnalyzer.Processed | CensusAnalyzer.java:143 | the loop consumes no lines for a limit <= 0, otherwise min(limit, #lines), never more lines than there are |
| CensusAnalyzer.IndexOfCode | CensusAnalyzer.java:157-176 | the scan finds the first slot holding the code, or the number of slots when none does |
| CensusAnalyzer.ParseAll | CensusAnalyzer.java:143-146 | on success, one record per line read, each satisfying containment (child <= total, poverty <= child) |
| CensusAnalyzer.ParseAllParses | CensusAnalyzer.java:143-146 | parsing a batch of lines succeeds exactly when every line parses, and then record k is line k's parse |
| CensusAnalyzer.FirstSeen | CensusAnalyzer.java:149-176 | the distinct state codes, each occurring in some record, every record's code among them, no more of them than records |
| CensusAnalyzer.FirstSeenOrder | CensusAnalyzer.java:149-176 | the codes are in first-occurrence order: wherever a record carries a code listed later, an earlier record carries each code listed before it |
| CensusAnalyzer.SumOf | CensusAnalyzer.java:161-172 | the sum for a code carries that code |
| CensusAnalyzer.SumOfContained | CensusAnalyzer.java:161-172 | sums of records that satisfy containment satisfy containment |
| CensusAnalyzer.SumOfAbsent | CensusAnalyzer.java:175 | a code no record carries sums to zero |
| CensusAnalyzer.SumOfConcat | CensusAnalyzer.java:161-172 | a code's sums over two consecutive batches of lines are the field-wise sums of its sums over each batch |
| CensusAnalyzer.AggregateIsSummary | CensusAnalyzer.java:143-178 | the read loop succeeds exactly when every line parses and there are at most 60 distinct codes, and then holds one accumulator per distinct code, in first-occurrence order, with that code's total, child and poverty sums |
| CensusAnalyzer.SummarySnocKnown | CensusAnalyzer.java:161-172 | a record whose code is already summarized adds its counts to that code's entry and leaves the other entries and the code order unchanged |
| CensusAnalyzer.SummarySnocNew | CensusAnalyzer.java:175 | a record with an unseen code is appended, as is, after the existing entries |
| CensusAnalyzer.StepIsSummary | CensusAnalyzer.java:146-176 | one parsed line moves the per-code summary of the records before it to the summary including it, failing exactly at a 61st distinct code |
| CensusAnalyzer.AggregateWellFormed | CensusAnalyzer.java:123-176 | after a successful read the accumulators have pairwise distinct codes, satisfy containment, and number at most 60 and at most the lines read |
| CensusAnalyzer.FailureAborts | CensusAnalyzer.java:113-114 | once a prefix of the lines fails, every longer prefix fails with the same error |
| CensusAnalyzer.StepAborts | CensusAnalyzer.java:146-175 | an error on line k ends the read of the first n lines with that error |
| CensusAnalyzer.AggregateNext | CensusAnalyzer.java:143-178 | reading one more line applies one loop pass to the accumulators of the lines before it |
| CensusAnalyzer.OccupiedCount | CensusAnalyzer.java:219-228 | the slots before the first null are all occupied, and the slot after them, if any, is null |
| CensusAnalyzer.HoldsOccupied | CensusAnalyzer.java:219-228 | an array holding the accumulators in its first slots and null after them has exactly that many slots before its first null, with those values |
| CensusAnalyzer.FindState | CensusAnalyzer.java:161-172 | the labelled scan over the occupied slots returns `IndexOfCode` of the accumulators they hold: the first slot with the code, or the number of occupied slots |
| CensusAnalyzer.Absorb | CensusAnalyzer.java:146-176 | one loop pass: fails exactly when `Step` does, with its error; otherwise the array holds `Step`'s accumulators in distinct objects, changed slots holding fresh objects |
| CensusAnalyzer.ReadCensusData | CensusAnalyzer.java:113-190 | processes min(numRecords, #lines) lines (none for numRecords <= 0); fails exactly when the aggregation of those lines does, with its error; otherwise returns a fresh 60-slot array holding the aggregation's accumulators in its first slots and null in the rest |
| CensusAnalyzer.WriteDataToFile | CensusAnalyzer.java:207-248 | writes the slots up to the first null, in order, each as its four `int`s and its percentage: 24 bytes per occupied slot |
| CensusAnalyzer.WriteAccumulators | CensusAnalyzer.java:219-236 | writing an array that holds the accumulators in its first slots and null after them yields exactly their encoding, in order |
| CensusAnalyzer.Analyze | CensusAnalyzer.java:74-96 | reading then writing yields the encoding of the aggregation's accumulators, or the read's error |
| CensusDataOutputReport.ReadInt | CensusDataOutputReport.java:111 | `readInt` succeeds exactly when four bytes remain, and then returns the `int` whose `writeInt` bytes they are |
| CensusDataOutputReport.ReadLong | CensusDataOutputReport.java:111 | `readDouble` succeeds exactly when eight bytes remain, and then returns the 64-bit pattern they render |
| CensusDataOutputReport.Report | CensusDataOutputReport.java:106-127 | no rows for numRec <= 0; at most numRec rows, all of them whole records in the stream; fewer than numRec only when less than one more whole record remains |
| CensusDataOutputReport.ReportBlocks | CensusDataOutputReport.java:110-111 | each printed row holds `int`s, and writing it again reproduces the 24 bytes it was read from |
| CensusDataOutputReport.ReportIgnoresPartialRecord | CensusDataOutputReport.java:124-127 | a trailing partial record is ignored: the report equals the report of the whole records alone |
| CensusDataOutputReport.ReportOfEncoding | CensusDataOutputReport.java:106-113 | reading the writer's output, even followed by a partial record, gives back the first min(numRec, n) records written, in order, each with its percentage |
| CensusDataOutputReport.AnalyzeThenReport | CensusDataOutputReport.java:106-113 | after a successful analysis with `int`-sized sums, a report on the written file with a limit of at least the number of accumulators prints exactly one row per accumulator, in order, each with its percentage |
| CensusDataOutputReport.ReportExtends | CensusDataOutputReport.java:106-113 | one more whole record adds exactly its row to the report |
| CensusDataOutputReport.ReportStops | CensusDataOutputReport.java:124-127 | with less than a record left after k records, a larger limit prints no more rows |
| CensusDataOutputReport.RowDecodes | CensusDataOutputReport.java:110-111 | the four `int`s and the `double` read one by one form the row decoded from the record's bytes |
| CensusDataOutputReport.ReadRecord | CensusDataOutputReport.java:110-111 | the four `readInt`s and the `readDouble` of one row succeed exactly when a whole record remains at the position, and then give that record's decoding |
| CensusDataOutputReport.GenerateReport | CensusDataOutputReport.java:89-139 | the loop returns exactly `Report(stream, numRec)`; the end of the stream, even part-way through a record, stops it without error and without printing that record |

## Left out

- Java `int` wrap-around. Fields and sums are unbounded integers, so `populationIncrementer` and the aggregation do not wrap at 2^31.
  - `writeInt` writes the value modulo 2^32, which is what it does for an `int`.
  - `ReportOfEncoding` and `AnalyzeThenReport` require `int`-sized values, because only those survive the round trip.
- The `double` percentage (`getChildPovertyPercentage`): floating-point division, and NaN when the child population is zero. It is a parameter function giving the 64-bit pattern written.
- `Integer.parseInt` on non-ASCII digits. `ParseInt` accepts only the ASCII digits 0-9 after an optional sign; Java also accepts other Unicode decimal digits.
- Characters are Unicode scalar values, not Java's UTF-16 code units, so the model's column offsets count scalar values where `substring` counts UTF-16 units. A line with a character outside the Basic Multilingual Plane before column 108 therefore parses differently: each such character shifts every later column by one unit in Java but not in the model. The census bureau's files are ASCII, where the two counts agree.
- Command-line handling, file-existence checks and the default limit `Integer.MAX_VALUE` (CensusAnalyzer.java:29-72, CensusDataOutputReport.java:27-62). Any limit can be passed in its place.
- Reading the text file.
  - `BufferedReader.readLine` becomes the given `seq<string>`.
  - The source reads one line more than the limit and discards it; that line is never parsed, so the model does not take it.
- Streams and their I/O errors: `DataOutputStream`, `DataInputStream`, buffering and try-with-resources. The model works on byte sequences, so an I/O error other than end-of-stream (which the report rethrows) cannot arise in it.
- Printing: `printHeadings`, the `printf` layout and the `toString` methods. `GenerateReport` returns the rows it would print.
- ReadCensusData: the source's special case for an empty array (`allocatedLength == 0`) stores the item at slot 0. The model reaches the same result through the general branch, because a scan over zero slots finds nothing.
- The `UnitTests` harness. The parse test and the incrementer test appear as `ParseSampleLine` and `IncrementSample`. The percentage test is floating point. The two "cannot exceed" tests stay within the limits and do not exercise an error path.
- `InvalidArgumentException`'s messages. It is modelled only as the error `InvalidArgument(total, child, poverty)` it carries (InvalidArgumentException.java:23-29).
