/** CensusDataOutputReport: reads the analyzer's binary file back, record by
    record, up to a limit, stopping quietly at the end of the stream. */
module CensusDataOutputReport {
  import opened Wrappers
  import opened JavaText
  import opened DataIO
  import opened Census
  import opened RecordFormat
  import opened CensusAnalyzer

  // ---------------------------------------------------------------------------
  // Reading primitives from a stream position

  /** readInt at `pos`: the `int` whose four big-endian bytes are next, or
      None at the end of the stream. */
  function ReadInt(stream: seq<Byte>, pos: nat): (r: Option<int>)
    ensures r.Some? <==> pos + 4 <= |stream|
    ensures r.Some? ==> IsInt32(r.value) && IntBytes(r.value) == stream[pos..pos + 4]
  {
    if pos + 4 <= |stream| then
      IntBytesRoundTrip(stream[pos..pos + 4]);
      Some(IntOfBytes(stream[pos..pos + 4]))
    else
      None
  }

  /** readDouble at `pos`, kept as the 64-bit pattern of the next eight
      bytes, or None at the end of the stream. */
  function ReadLong(stream: seq<Byte>, pos: nat): (r: Option<Bits64>)
    ensures r.Some? <==> pos + 8 <= |stream|
    ensures r.Some? ==> LongBytes(r.value) == stream[pos..pos + 8]
  {
    if pos + 8 <= |stream| then
      LongBytesRoundTrip(stream[pos..pos + 8]);
      Some(LongOfBytes(stream[pos..pos + 8]))
    else
      None
  }

  // ---------------------------------------------------------------------------
  // The report as a function of the stream

  /** The number of whole records in a stream of `length` bytes. */
  function WholeRecords(length: nat): nat {
    length / RecordSize
  }

  /** The rows the report prints: the first numRec whole records of the
      stream, or all of them when there are fewer. */
  function Report(stream: seq<Byte>, numRec: int): (rows: seq<ReportRow>)
    ensures numRec <= 0 ==> rows == []
    ensures numRec > 0 ==> |rows| <= numRec
    ensures RecordSize * |rows| <= |stream|
    ensures |rows| < numRec ==> |stream| < RecordSize * (|rows| + 1)
  {
    var count := if numRec <= 0 then 0
                 else if numRec < WholeRecords(|stream|) then numRec
                 else WholeRecords(|stream|);
    seq(count, i requires 0 <= i < count =>
      DecodeRecord(stream[RecordSize * i .. RecordSize * i + RecordSize]))
  }

  /** Row i is the decoding of bytes [24 i, 24 i + 24). */
  lemma ReportRowAt(stream: seq<Byte>, numRec: int, i: nat)
    requires i < |Report(stream, numRec)|
    ensures RecordSize * i + RecordSize <= |stream|
    ensures Report(stream, numRec)[i] == DecodeRecord(stream[RecordSize * i .. RecordSize * i + RecordSize])
  {
  }

  /** Every row printed holds `int` values, and writing it out again gives
      back exactly the bytes it was read from. */
  lemma ReportBlocks(stream: seq<Byte>, numRec: int)
    ensures forall i :: 0 <= i < |Report(stream, numRec)| ==>
      && FitsInt(Report(stream, numRec)[i].record)
      && EncodeRecord(Report(stream, numRec)[i].record, Report(stream, numRec)[i].percentBits)
         == stream[RecordSize * i .. RecordSize * i + RecordSize]
  {
    var rows := Report(stream, numRec);
    forall i | 0 <= i < |rows|
      ensures FitsInt(rows[i].record)
      ensures EncodeRecord(rows[i].record, rows[i].percentBits)
              == stream[RecordSize * i .. RecordSize * i + RecordSize]
    {
      ReportRowAt(stream, numRec, i);
      EncodeDecodeRecord(stream[RecordSize * i .. RecordSize * i + RecordSize]);
    }
  }

  /** A trailing partial record is ignored: the report of the stream equals
      the report of its whole records. */
  lemma ReportIgnoresPartialRecord(stream: seq<Byte>, numRec: int)
    ensures RecordSize * WholeRecords(|stream|) <= |stream|
    ensures Report(stream, numRec) == Report(stream[..RecordSize * WholeRecords(|stream|)], numRec)
  {
    var whole := stream[..RecordSize * WholeRecords(|stream|)];
    assert WholeRecords(|whole|) == WholeRecords(|stream|);
    var a := Report(stream, numRec);
    var b := Report(whole, numRec);
    assert |a| == |b|;
    forall i | 0 <= i < |a|
      ensures a[i] == b[i]
    {
      ReportRowAt(stream, numRec, i);
      ReportRowAt(whole, numRec, i);
      assert whole[RecordSize * i .. RecordSize * i + RecordSize]
          == stream[RecordSize * i .. RecordSize * i + RecordSize];
    }
  }

  /** Reading the encoder's output, followed by less than a record of
      trailing bytes, gives back the first numRec records written, each
      with its percentage. */
  lemma ReportOfEncoding(rs: seq<Record>, percent: Record -> Bits64, tail: seq<Byte>, numRec: int)
    requires forall k :: 0 <= k < |rs| ==> FitsInt(rs[k])
    requires |tail| < RecordSize
    ensures var rows := Report(EncodeRecords(rs, percent) + tail, numRec);
      && |rows| == (if numRec <= 0 then 0 else if numRec < |rs| then numRec else |rs|)
      && forall i :: 0 <= i < |rows| ==> rows[i] == ReportRow(rs[i], percent(rs[i]))
  {
    var bytes := EncodeRecords(rs, percent);
    var stream := bytes + tail;
    assert WholeRecords(|stream|) == |rs|;
    var rows := Report(stream, numRec);
    forall i | 0 <= i < |rows|
      ensures rows[i] == ReportRow(rs[i], percent(rs[i]))
    {
      ReportRowAt(stream, numRec, i);
      EncodedRecordAt(rs, percent, i);
      assert stream[RecordSize * i .. RecordSize * i + RecordSize]
          == bytes[RecordSize * i .. RecordSize * i + RecordSize];
      DecodeEncodeRecord(rs[i], percent(rs[i]));
    }
  }

  /** The whole pipeline: when the analyzer's read succeeds with `int`
      accumulators, a report with a large enough limit prints exactly the
      per-state accumulators it wrote, in order. */
  lemma AnalyzeThenReport(lines: seq<string>, numRecords: int, acc: seq<Record>,
                           percent: Record -> Bits64, numRec: int)
    requires Expected(lines, numRecords) == Success(acc)
    requires forall k :: 0 <= k < |acc| ==> FitsInt(acc[k])
    requires numRec >= |acc|
    ensures |Report(EncodeRecords(acc, percent), numRec)| == |acc|
    ensures forall i :: 0 <= i < |acc| ==>
      Report(EncodeRecords(acc, percent), numRec)[i] == ReportRow(acc[i], percent(acc[i]))
  {
    ReportOfEncoding(acc, percent, [], numRec);
    assert EncodeRecords(acc, percent) + [] == EncodeRecords(acc, percent);
  }

  // ---------------------------------------------------------------------------
  // The read loop

  /** The arguments of one printf: four readInt calls and a readDouble call
      at `pos`; None when the stream ends before all of them are read. */
  method ReadRecord(stream: seq<Byte>, pos: nat) returns (row: Option<ReportRow>)
    ensures row.Some? <==> pos + RecordSize <= |stream|
    ensures row.Some? ==> row.value == DecodeRecord(stream[pos..pos + RecordSize])
  {
    var state := ReadInt(stream, pos);
    if state.None? { return None; }
    var total := ReadInt(stream, pos + 4);
    if total.None? { return None; }
    var child := ReadInt(stream, pos + 8);
    if child.None? { return None; }
    var poverty := ReadInt(stream, pos + 12);
    if poverty.None? { return None; }
    var percentBits := ReadLong(stream, pos + 16);
    if percentBits.None? { return None; }
    var r := ReportRow(Record(state.value, total.value, child.value, poverty.value), percentBits.value);
    RowDecodes(stream, pos, r);
    return Some(r);
  }

  /** The read loop of generateReport: until numRec records have been read,
      read one record and print it as a row; the end of the stream, even
      part-way through a record, ends the loop without error. */
  method GenerateReport(stream: seq<Byte>, numRec: int) returns (rows: seq<ReportRow>)
    ensures rows == Report(stream, numRec)
  {
    rows := [];
    var counter := 0;
    var pos := 0;
    while counter < numRec
      invariant 0 <= counter && (counter <= numRec || counter == 0)
      invariant pos == RecordSize * counter <= |stream|
      invariant rows == Report(stream, counter)
      decreases numRec - counter
    {
      var row := ReadRecord(stream, pos);
      if row.None? {
        ReportStops(stream, counter, numRec);
        break;
      }
      ReportExtends(stream, counter);
      rows := rows + [row.value];
      pos := pos + RecordSize;
      counter := counter + 1;
    }
  }

  /** One more whole record in the stream adds its row to the report. */
  lemma ReportExtends(stream: seq<Byte>, k: nat)
    requires RecordSize * k + RecordSize <= |stream|
    ensures Report(stream, k + 1)
      == Report(stream, k) + [DecodeRecord(stream[RecordSize * k .. RecordSize * k + RecordSize])]
  {
    assert k + 1 <= WholeRecords(|stream|);
  }

  /** Once fewer than a record's bytes remain after k records, a larger
      limit reports no more rows. */
  lemma ReportStops(stream: seq<Byte>, k: nat, numRec: int)
    requires k < numRec
    requires RecordSize * k <= |stream| < RecordSize * k + RecordSize
    ensures Report(stream, numRec) == Report(stream, k)
  {
    assert WholeRecords(|stream|) == k;
  }

  /** A row read field by field at `pos` is the decoding of the record there. */
  lemma RowDecodes(stream: seq<Byte>, pos: nat, row: ReportRow)
    requires pos + RecordSize <= |stream|
    requires IsInt32(row.record.code) && IntBytes(row.record.code) == stream[pos..pos + 4]
    requires IsInt32(row.record.total) && IntBytes(row.record.total) == stream[pos + 4..pos + 8]
    requires IsInt32(row.record.child) && IntBytes(row.record.child) == stream[pos + 8..pos + 12]
    requires IsInt32(row.record.poverty) && IntBytes(row.record.poverty) == stream[pos + 12..pos + 16]
    requires LongBytes(row.percentBits) == stream[pos + 16..pos + 24]
    ensures DecodeRecord(stream[pos..pos + RecordSize]) == row
  {
    var bs := stream[pos..pos + RecordSize];
    assert bs == EncodeRecord(row.record, row.percentBits) by {
      assert bs == stream[pos..pos + 4] + stream[pos + 4..pos + 8] + stream[pos + 8..pos + 12]
        + stream[pos + 12..pos + 16] + stream[pos + 16..pos + 24];
    }
    DecodeEncodeRecord(row.record, row.percentBits);
  }
}
