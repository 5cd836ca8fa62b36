/** One state's (or one district's) census figures: the value of a record, the
    rules its guarded setters enforce, the fixed-width line parser, and the
    mutable StateCensus object that the aggregation updates in place. */
module Census {
  import opened Wrappers
  import opened Exceptions
  import opened JavaText

  /** The four `int` fields of a StateCensus, as a value. */
  datatype Record = Record(code: int, total: int, child: int, poverty: int)

  /** The containment rules: child <= total and poverty <= child. */
  predicate Contained(r: Record) {
    r.child <= r.total && r.poverty <= r.child
  }

  /** What `new StateCensus()` holds: Java zero-initialises every field. */
  const Zero := Record(0, 0, 0, 0)

  /** setChildPopulation applied to the value r. */
  function WithChild(r: Record, c: int): (res: Result<Record, CensusError>)
    ensures res.Success? <==> c <= r.total
    ensures res.Success? ==> res.value.child == c && res.value.(child := r.child) == r
    ensures res.Failure? ==> res.error == InvalidArgument(r.total, c, r.poverty)
  {
    if c > r.total then Failure(InvalidArgument(r.total, c, r.poverty))
    else Success(r.(child := c))
  }

  /** setChildPovertyPopulation applied to the value r. */
  function WithPoverty(r: Record, p: int): (res: Result<Record, CensusError>)
    ensures res.Success? <==> p <= r.child
    ensures res.Success? ==> res.value.poverty == p && res.value.(poverty := r.poverty) == r
    ensures res.Failure? ==> res.error == InvalidArgument(r.total, r.child, p)
  {
    if p > r.child then Failure(InvalidArgument(r.total, r.child, p))
    else Success(r.(poverty := p))
  }

  /** populationIncrementer on the value r: set total, then child, then
      poverty, each through its setter. */
  function Increment(r: Record, dt: int, dc: int, dp: int): (res: Result<Record, CensusError>)
    ensures res.Success? ==> res.value.code == r.code
    ensures res.Success? ==> res.value.child <= res.value.total && res.value.poverty <= res.value.child
  {
    var withTotal := r.(total := r.total + dt);
    var withChild :- WithChild(withTotal, withTotal.child + dc);
    WithPoverty(withChild, withChild.poverty + dp)
  }

  /** The field sum of two records, keeping the first one's state code. */
  function Add(a: Record, b: Record): Record {
    Record(a.code, a.total + b.total, a.child + b.child, a.poverty + b.poverty)
  }

  /** populationIncrementer succeeds exactly when the new child count fits
      the new total and the new poverty count fits the new child count; the
      error reports the values at the setter that refused. */
  lemma IncrementOutcome(r: Record, dt: int, dc: int, dp: int)
    ensures Increment(r, dt, dc, dp).Success? <==>
      r.child + dc <= r.total + dt && r.poverty + dp <= r.child + dc
    ensures Increment(r, dt, dc, dp).Success? ==>
      Increment(r, dt, dc, dp).value == Record(r.code, r.total + dt, r.child + dc, r.poverty + dp)
    ensures r.child + dc > r.total + dt ==>
      Increment(r, dt, dc, dp) == Failure(InvalidArgument(r.total + dt, r.child + dc, r.poverty))
    ensures r.child + dc <= r.total + dt && r.poverty + dp > r.child + dc ==>
      Increment(r, dt, dc, dp) == Failure(InvalidArgument(r.total + dt, r.child + dc, r.poverty + dp))
  {
  }

  /** The unit test of populationIncrementer: (1, 2, 3) added to the sample
      district's figures. */
  lemma IncrementSample()
    ensures Increment(Record(1, 31754, 6475, 733), 1, 2, 3) == Success(Record(1, 31755, 6477, 736))
  {
  }

  /** Fixed columns of the census bureau's line layout, [begin, end). */
  const CodeBegin := 0
  const CodeEnd := 2
  const TotalBegin := 82
  const TotalEnd := 90
  const ChildBegin := 91
  const ChildEnd := 99
  const PovertyBegin := 100
  const PovertyEnd := 108

  /** Integer.parseInt(line.substring(begin, end).trim()). */
  function Field(line: string, begin: int, end: int): (n: Result<int, CensusError>)
    ensures n.Success? ==> 0 <= begin <= end <= |line| && IsInt32(n.value)
    ensures !(0 <= begin <= end <= |line|) ==> n == Failure(StringIndexOutOfBounds(begin, end, |line|))
    ensures n.Failure? && 0 <= begin <= end <= |line| ==> n.error == NumberFormat(Trim(line[begin..end]))
  {
    var text :- Substring(line, begin, end);
    ParseInt(Trim(text))
  }

  /** StateCensus.parse as a value: the fields are cut out, converted and fed
      through the setters of a fresh record in this order, so the first failing
      step decides the error. */
  function ParseRecord(line: string): (r: Result<Record, CensusError>)
    ensures r.Success? ==> Contained(r.value)
  {
    var code :- Field(line, CodeBegin, CodeEnd);
    var total :- Field(line, TotalBegin, TotalEnd);
    var withTotal := Zero.(code := code).(total := total);
    var child :- Field(line, ChildBegin, ChildEnd);
    var withChild :- WithChild(withTotal, child);
    var poverty :- Field(line, PovertyBegin, PovertyEnd);
    WithPoverty(withChild, poverty)
  }

  /** Parse succeeds exactly on lines of at least 108 characters whose four
      fields convert and satisfy containment, and then returns those fields. */
  lemma ParseRecordSucceeds(line: string)
    ensures ParseRecord(line).Success? <==>
      |line| >= PovertyEnd &&
      Field(line, CodeBegin, CodeEnd).Success? &&
      Field(line, TotalBegin, TotalEnd).Success? &&
      Field(line, ChildBegin, ChildEnd).Success? &&
      Field(line, PovertyBegin, PovertyEnd).Success? &&
      Field(line, ChildBegin, ChildEnd).value <= Field(line, TotalBegin, TotalEnd).value &&
      Field(line, PovertyBegin, PovertyEnd).value <= Field(line, ChildBegin, ChildEnd).value
    ensures ParseRecord(line).Success? ==>
      ParseRecord(line).value == Record(
        Field(line, CodeBegin, CodeEnd).value,
        Field(line, TotalBegin, TotalEnd).value,
        Field(line, ChildBegin, ChildEnd).value,
        Field(line, PovertyBegin, PovertyEnd).value)
  {
  }

  /** Four fields that convert and satisfy containment are exactly what
      parse returns. */
  lemma ParseRecordOfFields(line: string, r: Record)
    requires Field(line, CodeBegin, CodeEnd) == Success(r.code)
    requires Field(line, TotalBegin, TotalEnd) == Success(r.total)
    requires Field(line, ChildBegin, ChildEnd) == Success(r.child)
    requires Field(line, PovertyBegin, PovertyEnd) == Success(r.poverty)
    requires Contained(r)
    ensures ParseRecord(line) == Success(r)
  {
  }

  /** A line whose child field exceeds its total field is rejected with
      (total, child, 0): poverty is still zero when the child setter throws,
      and the poverty columns are not even looked at. */
  lemma ParseRejectsChildOverTotal(line: string)
    requires Field(line, CodeBegin, CodeEnd).Success?
    requires Field(line, TotalBegin, TotalEnd).Success?
    requires Field(line, ChildBegin, ChildEnd).Success?
    requires Field(line, ChildBegin, ChildEnd).value > Field(line, TotalBegin, TotalEnd).value
    ensures ParseRecord(line) == Failure(InvalidArgument(
      Field(line, TotalBegin, TotalEnd).value, Field(line, ChildBegin, ChildEnd).value, 0))
  {
  }

  /** A line whose poverty field exceeds its (admissible) child field is
      rejected with (total, child, poverty). */
  lemma ParseRejectsPovertyOverChild(line: string)
    requires Field(line, CodeBegin, CodeEnd).Success?
    requires Field(line, TotalBegin, TotalEnd).Success?
    requires Field(line, ChildBegin, ChildEnd).Success?
    requires Field(line, PovertyBegin, PovertyEnd).Success?
    requires Field(line, ChildBegin, ChildEnd).value <= Field(line, TotalBegin, TotalEnd).value
    requires Field(line, PovertyBegin, PovertyEnd).value > Field(line, ChildBegin, ChildEnd).value
    ensures ParseRecord(line) == Failure(InvalidArgument(
      Field(line, TotalBegin, TotalEnd).value,
      Field(line, ChildBegin, ChildEnd).value,
      Field(line, PovertyBegin, PovertyEnd).value))
  {
  }

  /** The district line that the in-file unit tests use, written as its
      column pieces: code, filler, total, blank, child, blank, poverty, tail. */
  const SampleFiller: string := " 00190 Alabaster City School District                                           "
  const SampleTail: string := " USSD13.txt 24NOV2014  "
  const SampleLine: string :=
    "01" + SampleFiller + "   31754" + " " + "    6475" + " " + "     733" + SampleTail

  /** The parse unit test: the sample line yields (1, 31754, 6475, 733). */
  lemma ParseSampleLine()
    ensures ParseRecord(SampleLine) == Success(Record(1, 31754, 6475, 733))
  {
    SampleCodeField();
    SampleTotalField();
    SampleChildField();
    SamplePovertyField();
    ParseRecordOfFields(SampleLine, Record(1, 31754, 6475, 733));
  }

  /** The sample line's state code column. */
  lemma SampleCodeField()
    ensures Field(SampleLine, CodeBegin, CodeEnd) == Success(1)
  {
    SampleColumns();
    assert Trim("01") == "01" && "01"[0..] == "01" && "01"[..1] == "0" && "0"[..0] == "";
  }

  /** The sample line's total column. */
  lemma SampleTotalField()
    ensures Field(SampleLine, TotalBegin, TotalEnd) == Success(31754)
  {
    SampleColumns();
    SampleTotalText();
    FieldOf(SampleLine, TotalBegin, TotalEnd, "   31754", 31754);
  }

  /** The total column trims to its digits and parses. */
  lemma SampleTotalText()
    ensures ParseInt(Trim("   31754")) == Success(31754)
  {
    TrimPadded("   ", "31754", []);
    assert "   " + "31754" + [] == "   31754";
    SampleTotalDigits();
  }

  /** Integer.parseInt of the total digits, evaluated digit by digit. */
  lemma SampleTotalDigits()
    ensures ParseInt("31754") == Success(31754)
  {
    assert "31754"[0..] == "31754";
    assert DigitsValue("3") == 3;
    assert "31"[..1] == "3";
    assert DigitsValue("31") == 31;
    assert "317"[..2] == "31";
    assert DigitsValue("317") == 317;
    assert "3175"[..3] == "317";
    assert DigitsValue("3175") == 3175;
    assert "31754"[..4] == "3175";
    assert DigitsValue("31754") == 31754;
  }

  /** The sample line's child column. */
  lemma SampleChildField()
    ensures Field(SampleLine, ChildBegin, ChildEnd) == Success(6475)
  {
    SampleColumns();
    SampleChildText();
    FieldOf(SampleLine, ChildBegin, ChildEnd, "    6475", 6475);
  }

  /** The child column trims to its digits and parses. */
  lemma SampleChildText()
    ensures ParseInt(Trim("    6475")) == Success(6475)
  {
    TrimPadded("    ", "6475", []);
    assert "    " + "6475" + [] == "    6475";
    SampleChildDigits();
  }

  /** Integer.parseInt of the child digits, evaluated digit by digit. */
  lemma SampleChildDigits()
    ensures ParseInt("6475") == Success(6475)
  {
    assert "6475"[0..] == "6475";
    assert DigitsValue("6") == 6;
    assert "64"[..1] == "6";
    assert DigitsValue("64") == 64;
    assert "647"[..2] == "64";
    assert DigitsValue("647") == 647;
    assert "6475"[..3] == "647";
    assert DigitsValue("6475") == 6475;
  }

  /** The sample line's child poverty column. */
  lemma SamplePovertyField()
    ensures Field(SampleLine, PovertyBegin, PovertyEnd) == Success(733)
  {
    SampleColumns();
    SamplePovertyText();
    FieldOf(SampleLine, PovertyBegin, PovertyEnd, "     733", 733);
  }

  /** The child poverty column trims to its digits and parses. */
  lemma SamplePovertyText()
    ensures ParseInt(Trim("     733")) == Success(733)
  {
    TrimPadded("     ", "733", []);
    assert "     " + "733" + [] == "     733";
    SamplePovertyDigits();
  }

  /** Integer.parseInt of the child poverty digits, evaluated digit by digit. */
  lemma SamplePovertyDigits()
    ensures ParseInt("733") == Success(733)
  {
    assert "733"[0..] == "733";
    assert DigitsValue("7") == 7;
    assert "73"[..1] == "7";
    assert DigitsValue("73") == 73;
    assert "733"[..2] == "73";
    assert DigitsValue("733") == 733;
  }

  /** A column whose text parses gives the field's value. */
  lemma FieldOf(line: string, begin: int, end: int, text: string, n: int)
    requires 0 <= begin <= end <= |line| && line[begin..end] == text
    requires ParseInt(Trim(text)) == Success(n)
    ensures Field(line, begin, end) == Success(n)
  {
  }

  /** The four columns of the sample line. */
  lemma SampleColumns()
    ensures |SampleLine| >= PovertyEnd
    ensures SampleLine[CodeBegin..CodeEnd] == "01"
    ensures SampleLine[TotalBegin..TotalEnd] == "   31754"
    ensures SampleLine[ChildBegin..ChildEnd] == "    6475"
    ensures SampleLine[PovertyBegin..PovertyEnd] == "     733"
  {
    ColumnsOf("01", SampleFiller, "   31754", "    6475", "     733", SampleTail);
  }

  /** Merging two records that each satisfy containment never trips a setter
      guard, and the merged record satisfies containment again. */
  lemma MergeContained(a: Record, b: Record)
    requires Contained(a) && Contained(b)
    ensures Increment(a, b.total, b.child, b.poverty) == Success(Add(a, b))
    ensures Contained(Add(a, b))
  {
  }

  /** A census line laid out by the bureau's columns, with blank filler. */
  function FormatLine(r: Record): (line: string)
    requires 0 <= r.code < 100
    requires 0 <= r.total < 100_000_000 && 0 <= r.child < 100_000_000 && 0 <= r.poverty < 100_000_000
    ensures |line| == PovertyEnd
  {
    DecimalWidth(r.code, 2);
    DecimalWidth(r.total, 8);
    DecimalWidth(r.child, 8);
    DecimalWidth(r.poverty, 8);
    PadLeft(Decimal(r.code), 2) + Spaces(80)
      + PadLeft(Decimal(r.total), 8) + " "
      + PadLeft(Decimal(r.child), 8) + " "
      + PadLeft(Decimal(r.poverty), 8)
  }

  /** The four column ranges of a line assembled from its pieces. */
  lemma ColumnsOf(code: string, filler: string, total: string, child: string, poverty: string, tail: string)
    requires |code| == 2 && |filler| == 80 && |total| == 8 && |child| == 8 && |poverty| == 8
    ensures var line := code + filler + total + " " + child + " " + poverty + tail;
      |line| >= PovertyEnd &&
      line[CodeBegin..CodeEnd] == code && line[TotalBegin..TotalEnd] == total &&
      line[ChildBegin..ChildEnd] == child && line[PovertyBegin..PovertyEnd] == poverty
  {
    var line := code + filler + total + " " + child + " " + poverty + tail;
    assert forall i :: 0 <= i < 2 ==> line[i] == code[i];
    assert forall i :: 0 <= i < 8 ==> line[82 + i] == total[i];
    assert forall i :: 0 <= i < 8 ==> line[91 + i] == child[i];
    assert forall i :: 0 <= i < 8 ==> line[100 + i] == poverty[i];
  }

  /** The parser reads back every non-negative record that satisfies
      containment and fits the column widths. */
  lemma ParseFormatLine(r: Record)
    requires 0 <= r.code < 100
    requires 0 <= r.total < 100_000_000 && 0 <= r.child < 100_000_000 && 0 <= r.poverty < 100_000_000
    requires Contained(r)
    ensures ParseRecord(FormatLine(r)) == Success(r)
  {
    DecimalWidth(r.code, 2);
    DecimalWidth(r.total, 8);
    DecimalWidth(r.child, 8);
    DecimalWidth(r.poverty, 8);
    var c := PadLeft(Decimal(r.code), 2);
    var t := PadLeft(Decimal(r.total), 8);
    var ch := PadLeft(Decimal(r.child), 8);
    var p := PadLeft(Decimal(r.poverty), 8);
    ColumnsOf(c, Spaces(80), t, ch, p, []);
    assert FormatLine(r) == c + Spaces(80) + t + " " + ch + " " + p + [];
    PadLeftDecimalField(r.code, 2);
    PadLeftDecimalField(r.total, 8);
    PadLeftDecimalField(r.child, 8);
    PadLeftDecimalField(r.poverty, 8);
  }

  /** A StateCensus object: four mutable `int` fields behind setters. */
  class StateCensus {
    var stateCode: int
    var totalPopulation: int
    var childPopulation: int
    var childPovertyPopulation: int

    /** The object's fields as a record value. */
    function Value(): Record
      reads this
    {
      Record(stateCode, totalPopulation, childPopulation, childPovertyPopulation)
    }

    /** The no-op default constructor: every field is zero. */
    constructor ()
      ensures Value() == Zero
    {
      stateCode, totalPopulation, childPopulation, childPovertyPopulation := 0, 0, 0, 0;
    }

    /** Accepts any code and changes nothing else. */
    method SetStateCode(code: int)
      modifies this
      ensures Value() == old(Value()).(code := code)
    {
      stateCode := code;
    }

    /** Accepts any total, even one below the current child population. */
    method SetTotalPopulation(total: int)
      modifies this
      ensures Value() == old(Value()).(total := total)
    {
      totalPopulation := total;
    }

    /** Rejects a child population above the total, reporting
        (total, child, current poverty) and leaving the object unchanged; does
        not re-check poverty against the new child population. */
    method SetChildPopulation(child: int) returns (outcome: Outcome<CensusError>)
      modifies this
      ensures outcome.Fail? <==> child > old(totalPopulation)
      ensures outcome.Fail? ==>
        outcome.error == InvalidArgument(old(totalPopulation), child, old(childPovertyPopulation))
        && Value() == old(Value())
      ensures outcome.Pass? ==> Value() == old(Value()).(child := child)
      ensures Agrees(WithChild(old(Value()), child), outcome, Value())
    {
      if child > totalPopulation {
        return Fail(InvalidArgument(totalPopulation, child, childPovertyPopulation));
      }
      childPopulation := child;
      return Pass;
    }

    /** Rejects a poverty population above the child population, reporting
        (total, child, poverty) and leaving the object unchanged. */
    method SetChildPovertyPopulation(poverty: int) returns (outcome: Outcome<CensusError>)
      modifies this
      ensures outcome.Fail? <==> poverty > old(childPopulation)
      ensures outcome.Fail? ==>
        outcome.error == InvalidArgument(old(totalPopulation), old(childPopulation), poverty)
        && Value() == old(Value())
      ensures outcome.Pass? ==> Value() == old(Value()).(poverty := poverty)
      ensures Agrees(WithPoverty(old(Value()), poverty), outcome, Value())
    {
      if poverty > childPopulation {
        return Fail(InvalidArgument(totalPopulation, childPopulation, poverty));
      }
      childPovertyPopulation := poverty;
      return Pass;
    }

    /** Adds the three deltas through the setters, one after another. It is not
        atomic: when the child check fails the total is already incremented, and
        when the poverty check fails total and child are. */
    method PopulationIncrementer(dt: int, dc: int, dp: int) returns (outcome: Outcome<CensusError>)
      modifies this
      ensures outcome.Pass? ==>
        Value() == Record(old(stateCode), old(totalPopulation) + dt,
                          old(childPopulation) + dc, old(childPovertyPopulation) + dp)
      ensures outcome.Fail? && old(childPopulation) + dc > old(totalPopulation) + dt ==>
        Value() == old(Value()).(total := old(totalPopulation) + dt)
      ensures outcome.Fail? && old(childPopulation) + dc <= old(totalPopulation) + dt ==>
        Value() == old(Value()).(total := old(totalPopulation) + dt, child := old(childPopulation) + dc)
      ensures Agrees(Increment(old(Value()), dt, dc, dp), outcome, Value())
    {
      SetTotalPopulation(totalPopulation + dt);
      outcome := SetChildPopulation(childPopulation + dc);
      if outcome.Fail? {
        return;
      }
      outcome := SetChildPovertyPopulation(childPovertyPopulation + dp);
    }

    /** StateCensus.parse: a fresh object filled through its setters, failing
        exactly as ParseRecord does. */
    static method Parse(line: string) returns (res: Result<StateCensus, CensusError>)
      ensures res.Success? <==> ParseRecord(line).Success?
      ensures res.Failure? ==> res.error == ParseRecord(line).error
      ensures res.Success? ==> fresh(res.value) && res.value.Value() == ParseRecord(line).value
    {
      var ci := new StateCensus();
      var code :- Field(line, CodeBegin, CodeEnd);
      ci.SetStateCode(code);
      var total :- Field(line, TotalBegin, TotalEnd);
      ci.SetTotalPopulation(total);
      var child :- Field(line, ChildBegin, ChildEnd);
      var outcome := ci.SetChildPopulation(child);
      if outcome.Fail? {
        return Failure(outcome.error);
      }
      var poverty :- Field(line, PovertyBegin, PovertyEnd);
      outcome := ci.SetChildPovertyPopulation(poverty);
      if outcome.Fail? {
        return Failure(outcome.error);
      }
      return Success(ci);
    }

    /** The StateCensus(String) constructor: parse the line, then copy the four
        values into a fresh object through the setters, which cannot fail on a
        parsed record. */
    static method FromLine(line: string) returns (res: Result<StateCensus, CensusError>)
      ensures res.Success? <==> ParseRecord(line).Success?
      ensures res.Failure? ==> res.error == ParseRecord(line).error
      ensures res.Success? ==> fresh(res.value) && res.value.Value() == ParseRecord(line).value
    {
      var ci :- Parse(line);
      var sc := new StateCensus();
      sc.SetStateCode(ci.stateCode);
      sc.SetTotalPopulation(ci.totalPopulation);
      var outcome := sc.SetChildPopulation(ci.childPopulation);
      assert outcome.Pass?;
      outcome := sc.SetChildPovertyPopulation(ci.childPovertyPopulation);
      assert outcome.Pass?;
      return Success(sc);
    }
  }

  /** An object-level outcome matches a value-level result: the same error,
      or success leaving the object holding the result's value. */
  predicate Agrees(spec: Result<Record, CensusError>, outcome: Outcome<CensusError>, now: Record) {
    match spec
    case Success(r) => outcome.Pass? && now == r
    case Failure(e) => outcome == Fail(e)
  }
}
