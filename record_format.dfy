/** The binary file that connects the analyzer to the report: records back to
    back, no header, no separator; each record is the state code, total, child
    and child poverty populations as `int`s, then the child poverty percentage
    as a `double`. */
module RecordFormat {
  import opened JavaText
  import opened DataIO
  import opened Census

  /** Four 4-byte ints and one 8-byte double. */
  const RecordSize: nat := 24

  /** One decoded record: the four counts and the percentage's bit pattern. */
  datatype ReportRow = ReportRow(record: Record, percentBits: Bits64)

  /** Every field is a Java `int`. */
  predicate FitsInt(r: Record) {
    IsInt32(r.code) && IsInt32(r.total) && IsInt32(r.child) && IsInt32(r.poverty)
  }

  /** The bytes written for one record, field by field. */
  function EncodeRecord(r: Record, percent: Bits64): (bs: seq<Byte>)
    ensures |bs| == RecordSize
  {
    IntBytes(r.code) + IntBytes(r.total) + IntBytes(r.child) + IntBytes(r.poverty)
      + LongBytes(percent)
  }

  /** The four readInt calls and the readDouble call on one record's bytes. */
  function DecodeRecord(bs: seq<Byte>): (row: ReportRow)
    requires |bs| == RecordSize
    ensures FitsInt(row.record)
  {
    ReportRow(
      Record(IntOfBytes(bs[0..4]), IntOfBytes(bs[4..8]), IntOfBytes(bs[8..12]), IntOfBytes(bs[12..16])),
      LongOfBytes(bs[16..24]))
  }

  /** Decoding a record's bytes gives the record and its percentage back. */
  lemma DecodeEncodeRecord(r: Record, percent: Bits64)
    requires FitsInt(r)
    ensures DecodeRecord(EncodeRecord(r, percent)) == ReportRow(r, percent)
  {
    var bs := EncodeRecord(r, percent);
    var ints := IntBytes(r.code) + IntBytes(r.total) + IntBytes(r.child) + IntBytes(r.poverty);
    assert bs == ints + LongBytes(percent) && |ints| == 16;
    assert bs[0..4] == IntBytes(r.code);
    assert bs[4..8] == IntBytes(r.total);
    assert bs[8..12] == IntBytes(r.child);
    assert bs[12..16] == IntBytes(r.poverty);
    assert bs[16..24] == LongBytes(percent);
    IntRoundTrip(r.code);
    IntRoundTrip(r.total);
    IntRoundTrip(r.child);
    IntRoundTrip(r.poverty);
    LongRoundTrip(percent);
  }

  /** Every 24 bytes are the encoding of the row they decode to. */
  lemma EncodeDecodeRecord(bs: seq<Byte>)
    requires |bs| == RecordSize
    ensures var row := DecodeRecord(bs); EncodeRecord(row.record, row.percentBits) == bs
  {
    var r := DecodeRecord(bs).record;
    IntBytesRoundTrip(bs[0..4]);
    IntBytesRoundTrip(bs[4..8]);
    IntBytesRoundTrip(bs[8..12]);
    IntBytesRoundTrip(bs[12..16]);
    assert IntBytes(r.code) + IntBytes(r.total) + IntBytes(r.child) + IntBytes(r.poverty)
        == bs[0..4] + bs[4..8] + bs[8..12] + bs[12..16];
    assert LongBytes(DecodeRecord(bs).percentBits) == bs[16..24];
    assert bs == bs[0..4] + bs[4..8] + bs[8..12] + bs[12..16] + bs[16..24];
  }

  /** The file written for a sequence of records, the percentage of each
      computed by `percent`. */
  function EncodeRecords(rs: seq<Record>, percent: Record -> Bits64): (bs: seq<Byte>)
    ensures |bs| == RecordSize * |rs|
  {
    if rs == [] then []
    else
      var last := rs[|rs| - 1];
      EncodeRecords(rs[..|rs| - 1], percent) + EncodeRecord(last, percent(last))
  }

  /** Record i occupies bytes [24 i, 24 i + 24) of the file. */
  lemma {:induction false} EncodedRecordAt(rs: seq<Record>, percent: Record -> Bits64, i: nat)
    requires i < |rs|
    ensures RecordSize * i + RecordSize <= |EncodeRecords(rs, percent)|
    ensures EncodeRecords(rs, percent)[RecordSize * i .. RecordSize * i + RecordSize]
            == EncodeRecord(rs[i], percent(rs[i]))
  {
    var init := rs[..|rs| - 1];
    var prefix := EncodeRecords(init, percent);
    if i < |rs| - 1 {
      EncodedRecordAt(init, percent, i);
      assert init[i] == rs[i];
    }
  }
}
