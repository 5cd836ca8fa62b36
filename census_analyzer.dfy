/** CensusAnalyzer: folds district lines into per-state accumulators held in a
    60-slot array, then writes the occupied slots to the binary file. */
module CensusAnalyzer {
  import opened Wrappers
  import opened Exceptions
  import opened Census
  import opened DataIO
  import opened RecordFormat

  /** The length of the accumulator array. */
  const Capacity: nat := 60

  // ---------------------------------------------------------------------------
  // The aggregation, as a function of the lines read so far

  /** The linear scan for a state code: the first slot holding it, or |acc|. */
  function IndexOfCode(acc: seq<Record>, code: int): (i: nat)
    ensures i <= |acc|
    ensures i < |acc| ==> acc[i].code == code
    ensures forall j :: 0 <= j < i ==> acc[j].code != code
  {
    if acc == [] then 0
    else if acc[0].code == code then 0
    else 1 + IndexOfCode(acc[1..], code)
  }

  /** One pass of the read loop: parse the line, then merge it into the slot
      with its state code or store it in the next free slot. */
  function Step(acc: seq<Record>, line: string): (r: Result<seq<Record>, CensusError>)
    ensures ParseRecord(line).Failure? ==> r == Failure(ParseRecord(line).error)
    ensures r.Success? ==> |acc| <= |r.value| <= |acc| + 1
    ensures r.Success? && |r.value| == |acc| + 1 ==> |acc| < Capacity && r.value[|acc|] == ParseRecord(line).value
    ensures r.Success? ==> forall i :: 0 <= i < |acc| ==> r.value[i].code == acc[i].code
  {
    var item :- ParseRecord(line);
    var i := IndexOfCode(acc, item.code);
    if i < |acc| then
      var merged :- Increment(acc[i], item.total, item.child, item.poverty);
      Success(acc[i := merged])
    else if |acc| < Capacity then
      Success(acc + [item])
    else
      Failure(ArrayIndexOutOfBounds(|acc|, Capacity))
  }

  /** The accumulators after reading all of `lines`, or the first error. */
  function Aggregate(lines: seq<string>): (r: Result<seq<Record>, CensusError>)
    ensures r.Success? ==> |r.value| <= |lines|
  {
    if lines == [] then Success([])
    else
      var acc :- Aggregate(lines[..|lines| - 1]);
      Step(acc, lines[|lines| - 1])
  }

  /** How many lines the read loop consumes: none for a limit <= 0, else
      the smaller of the limit and the number of lines. */
  function Processed(lineCount: nat, numRecords: int): (n: nat)
    ensures n <= lineCount
    ensures numRecords <= 0 ==> n == 0
    ensures numRecords > 0 ==> n == if numRecords < lineCount then numRecords else lineCount
  {
    if numRecords <= 0 then 0
    else if numRecords < lineCount then numRecords
    else lineCount
  }

  // ---------------------------------------------------------------------------
  // A reference definition: per-state sums in first-occurrence order

  /** Every line parsed, or the first parse error. */
  function ParseAll(lines: seq<string>): (r: Result<seq<Record>, CensusError>)
    ensures r.Success? ==> |r.value| == |lines|
    ensures r.Success? ==> forall k :: 0 <= k < |r.value| ==> Contained(r.value[k])
  {
    if lines == [] then Success([])
    else
      var recs :- ParseAll(lines[..|lines| - 1]);
      var last :- ParseRecord(lines[|lines| - 1]);
      Success(recs + [last])
  }

  /** ParseAll succeeds exactly when every line parses, and then holds each
      line's record, in line order. */
  lemma {:induction false} ParseAllParses(lines: seq<string>)
    ensures ParseAll(lines).Success? <==> forall k :: 0 <= k < |lines| ==> ParseRecord(lines[k]).Success?
    ensures ParseAll(lines).Success? ==>
      forall k :: 0 <= k < |lines| ==> ParseRecord(lines[k]) == Success(ParseAll(lines).value[k])
  {
    if lines != [] {
      var init := lines[..|lines| - 1];
      var last := |lines| - 1;
      ParseAllParses(init);
      if ParseAll(init).Failure? {
        var k :| 0 <= k < |init| && ParseRecord(init[k]).Failure?;
        assert init[k] == lines[k];
      } else if ParseRecord(lines[last]).Failure? {
      } else {
        var recs := ParseAll(lines).value;
        assert recs == ParseAll(init).value + [ParseRecord(lines[last]).value];
        forall k | 0 <= k < |lines|
          ensures ParseRecord(lines[k]) == Success(recs[k])
        {
          if k < last {
            assert init[k] == lines[k];
          }
        }
      }
    }
  }

  /** The distinct state codes of `recs`, in order of first occurrence. */
  function FirstSeen(recs: seq<Record>): (codes: seq<int>)
    ensures |codes| <= |recs|
    ensures forall k :: 0 <= k < |recs| ==> recs[k].code in codes
    ensures forall c :: c in codes ==> exists k :: 0 <= k < |recs| && recs[k].code == c
    ensures forall i, j :: 0 <= i < j < |codes| ==> codes[i] != codes[j]
  {
    if recs == [] then []
    else
      var init := recs[..|recs| - 1];
      var codes := FirstSeen(init);
      assert forall k :: 0 <= k < |init| ==> init[k] == recs[k];
      if recs[|recs| - 1].code in codes then codes else codes + [recs[|recs| - 1].code]
  }

  /** FirstSeen lists the codes in order of first occurrence: wherever a
      record carries a later code, an earlier record carries every code
      listed before it. */
  lemma {:induction false} FirstSeenOrder(recs: seq<Record>, i: nat, j: nat, k: nat)
    requires i < j < |FirstSeen(recs)|
    requires k < |recs| && recs[k].code == FirstSeen(recs)[j]
    ensures exists m :: 0 <= m < k && recs[m].code == FirstSeen(recs)[i]
  {
    var init := recs[..|recs| - 1];
    var before := FirstSeen(init);
    var codes := FirstSeen(recs);
    assert forall n :: 0 <= n < |init| ==> init[n] == recs[n];
    assert codes[..|before|] == before;
    var last := recs[|recs| - 1].code;
    assert codes == before || (codes == before + [last] && last !in before);
    if k < |init| {
      assert init[k].code in before;
      assert j < |before|;
      FirstSeenOrder(init, i, j, k);
      var m :| 0 <= m < k && init[m].code == before[i];
    } else {
      assert i < |before|;
      assert before[i] in before;
      var m :| 0 <= m < |init| && init[m].code == before[i];
      assert recs[m].code == codes[i];
    }
  }

  /** The total, child and poverty counts of all records with the given code. */
  function SumOf(recs: seq<Record>, code: int): (s: Record)
    ensures s.code == code
  {
    if recs == [] then Record(code, 0, 0, 0)
    else
      var s := SumOf(recs[..|recs| - 1], code);
      var last := recs[|recs| - 1];
      if last.code == code then Add(s, last) else s
  }

  /** The sums over a concatenation are the field-wise sums of the sums over
      its two parts. */
  lemma {:induction false} SumOfConcat(a: seq<Record>, b: seq<Record>, code: int)
    ensures SumOf(a + b, code) == Add(SumOf(a, code), SumOf(b, code))
  {
    if b != [] {
      var init := b[..|b| - 1];
      assert (a + b)[..|a + b| - 1] == a + init;
      SumOfConcat(a, init, code);
    } else {
      assert a + b == a;
    }
  }

  /** One record per distinct state code, in first-occurrence order, holding
      that code's summed counts. */
  function Summary(recs: seq<Record>): seq<Record> {
    var codes := FirstSeen(recs);
    seq(|codes|, i requires 0 <= i < |codes| => SumOf(recs, codes[i]))
  }

  /** Sums of records that satisfy containment satisfy it too. */
  lemma {:induction false} SumOfContained(recs: seq<Record>, code: int)
    requires forall k :: 0 <= k < |recs| ==> Contained(recs[k])
    ensures Contained(SumOf(recs, code))
  {
    if recs != [] {
      SumOfContained(recs[..|recs| - 1], code);
    }
  }

  /** A code that no record carries sums to zero. */
  lemma {:induction false} SumOfAbsent(recs: seq<Record>, code: int)
    requires forall k :: 0 <= k < |recs| ==> recs[k].code != code
    ensures SumOf(recs, code) == Record(code, 0, 0, 0)
  {
    if recs != [] {
      SumOfAbsent(recs[..|recs| - 1], code);
    }
  }

  /** The read loop computes the reference definition: it succeeds exactly when
      every line parses and there are at most 60 distinct state codes (a merge
      never trips a setter guard), and it then holds one accumulator per
      distinct code, in first-occurrence order, with that code's sums. */
  lemma {:induction false} AggregateIsSummary(lines: seq<string>)
    ensures Aggregate(lines).Success? <==>
      ParseAll(lines).Success? && |FirstSeen(ParseAll(lines).value)| <= Capacity
    ensures Aggregate(lines).Success? ==> Aggregate(lines).value == Summary(ParseAll(lines).value)
  {
    if lines != [] {
      var init := lines[..|lines| - 1];
      var line := lines[|lines| - 1];
      AggregateIsSummary(init);
      if Aggregate(init).Success? && ParseRecord(line).Success? {
        var recs0 := ParseAll(init).value;
        var r := ParseRecord(line).value;
        var recs := ParseAll(lines).value;
        assert recs == recs0 + [r];
        assert recs[..|recs| - 1] == recs0;
        StepIsSummary(recs0, r, line);
      } else if Aggregate(init).Success? {
        assert ParseAll(lines).Failure?;
      } else if ParseAll(init).Success? && ParseRecord(line).Success? {
        var recs := ParseAll(lines).value;
        assert recs[..|recs| - 1] == ParseAll(init).value;
      }
    }
  }

  /** One step of AggregateIsSummary: a parsed line r moves the summary of
      recs0 to the summary of recs0 + [r]. */
  lemma StepIsSummary(recs0: seq<Record>, r: Record, line: string)
    requires ParseRecord(line) == Success(r)
    requires forall k :: 0 <= k < |recs0| ==> Contained(recs0[k])
    requires |FirstSeen(recs0)| <= Capacity
    ensures var recs := recs0 + [r];
      Step(Summary(recs0), line).Success? <==> |FirstSeen(recs)| <= Capacity
    ensures var recs := recs0 + [r];
      Step(Summary(recs0), line).Success? ==> Step(Summary(recs0), line).value == Summary(recs)
  {
    var acc := Summary(recs0);
    var codes0 := FirstSeen(recs0);
    var i := IndexOfCode(acc, r.code);
    if i < |acc| {
      assert acc[i].code == codes0[i];
      SummarySnocKnown(recs0, r, i);
      SumOfContained(recs0, r.code);
      MergeContained(acc[i], r);
      StepMerges(acc, line, r, Add(acc[i], r));
    } else {
      forall j | 0 <= j < |codes0|
        ensures codes0[j] != r.code
      {
        assert acc[j].code == codes0[j];
      }
      SummarySnocNew(recs0, r);
      StepAppends(acc, line, r);
    }
  }

  /** A record whose code is already among the codes adds its counts to that
      code's sums and keeps the codes. */
  lemma SummarySnocKnown(recs0: seq<Record>, r: Record, i: nat)
    requires i < |FirstSeen(recs0)| && FirstSeen(recs0)[i] == r.code
    ensures FirstSeen(recs0 + [r]) == FirstSeen(recs0)
    ensures Summary(recs0 + [r]) == Summary(recs0)[i := Add(Summary(recs0)[i], r)]
  {
    var recs := recs0 + [r];
    assert recs[..|recs| - 1] == recs0;
    var codes0 := FirstSeen(recs0);
    var acc := Summary(recs0);
    forall j | 0 <= j < |codes0|
      ensures acc[i := Add(acc[i], r)][j] == SumOf(recs, codes0[j])
    {
      if j != i {
        assert codes0[j] != r.code;
      }
    }
  }

  /** A record with a new code appends that code, with the record itself as
      the code's sums. */
  lemma SummarySnocNew(recs0: seq<Record>, r: Record)
    requires forall j :: 0 <= j < |FirstSeen(recs0)| ==> FirstSeen(recs0)[j] != r.code
    ensures FirstSeen(recs0 + [r]) == FirstSeen(recs0) + [r.code]
    ensures Summary(recs0 + [r]) == Summary(recs0) + [r]
  {
    var recs := recs0 + [r];
    assert recs[..|recs| - 1] == recs0;
    var codes0 := FirstSeen(recs0);
    assert r.code !in codes0;
    forall k | 0 <= k < |recs0|
      ensures recs0[k].code != r.code
    {
      assert recs0[k].code in codes0;
    }
    SumOfAbsent(recs0, r.code);
    assert SumOf(recs, r.code) == r;
  }

  /** Step on a line whose code sits in slot i, when the increment succeeds. */
  lemma StepMerges(acc: seq<Record>, line: string, r: Record, merged: Record)
    requires ParseRecord(line) == Success(r)
    requires IndexOfCode(acc, r.code) < |acc|
    requires Increment(acc[IndexOfCode(acc, r.code)], r.total, r.child, r.poverty) == Success(merged)
    ensures Step(acc, line) == Success(acc[IndexOfCode(acc, r.code) := merged])
  {
  }

  /** Step on a line that does not parse fails with the parse error. */
  lemma StepParseFails(acc: seq<Record>, line: string)
    requires ParseRecord(line).Failure?
    ensures Step(acc, line) == Failure(ParseRecord(line).error)
  {
  }

  /** Step on a known code whose increment is rejected fails with that error. */
  lemma StepMergeFails(acc: seq<Record>, line: string, r: Record)
    requires ParseRecord(line) == Success(r)
    requires IndexOfCode(acc, r.code) < |acc|
    requires Increment(acc[IndexOfCode(acc, r.code)], r.total, r.child, r.poverty).Failure?
    ensures Step(acc, line) == Failure(Increment(acc[IndexOfCode(acc, r.code)], r.total, r.child, r.poverty).error)
  {
  }

  /** Step on a line whose code no slot holds. */
  lemma StepAppends(acc: seq<Record>, line: string, r: Record)
    requires ParseRecord(line) == Success(r)
    requires IndexOfCode(acc, r.code) == |acc|
    ensures |acc| < Capacity ==> Step(acc, line) == Success(acc + [r])
    ensures |acc| >= Capacity ==> Step(acc, line) == Failure(ArrayIndexOutOfBounds(|acc|, Capacity))
  {
  }

  /** After any successful read, the accumulators have distinct state codes,
      each satisfies containment, and there are no more of them than lines
      read or slots in the array. */
  lemma AggregateWellFormed(lines: seq<string>)
    requires Aggregate(lines).Success?
    ensures var acc := Aggregate(lines).value;
      && |acc| <= Capacity
      && |acc| <= |lines|
      && (forall i, j :: 0 <= i < j < |acc| ==> acc[i].code != acc[j].code)
      && (forall i :: 0 <= i < |acc| ==> Contained(acc[i]))
  {
    AggregateIsSummary(lines);
    var recs := ParseAll(lines).value;
    forall i | 0 <= i < |FirstSeen(recs)|
      ensures Contained(SumOf(recs, FirstSeen(recs)[i]))
    {
      SumOfContained(recs, FirstSeen(recs)[i]);
    }
  }

  /** Any error aborts the whole read: once a prefix of the input fails, every
      longer prefix fails with the same error. */
  lemma {:induction false} FailureAborts(lines: seq<string>, k: nat)
    requires k <= |lines|
    requires Aggregate(lines[..k]).Failure?
    ensures Aggregate(lines) == Aggregate(lines[..k])
  {
    if k < |lines| {
      var init := lines[..|lines| - 1];
      assert init[..k] == lines[..k];
      FailureAborts(init, k);
    } else {
      assert lines[..k] == lines;
    }
  }

  /** Reading line k after the first k lines is one more Step. */
  lemma AggregateNext(lines: seq<string>, k: nat, acc: seq<Record>)
    requires k < |lines|
    requires Aggregate(lines[..k]) == Success(acc)
    ensures Aggregate(lines[..k + 1]) == Step(acc, lines[k])
  {
    assert lines[..k + 1][..k] == lines[..k];
  }

  /** A failing step on line k ends the read of the first n lines with its error. */
  lemma StepAborts(lines: seq<string>, acc: seq<Record>, k: nat, n: nat)
    requires k < n <= |lines|
    requires Aggregate(lines[..k]) == Success(acc)
    requires Step(acc, lines[k]).Failure?
    ensures Aggregate(lines[..n]) == Step(acc, lines[k])
  {
    var prefix := lines[..n];
    assert prefix[..k + 1] == lines[..k + 1];
    assert lines[..k + 1][..k] == lines[..k];
    FailureAborts(prefix, k + 1);
  }

  // ---------------------------------------------------------------------------
  // The array of StateCensus objects

  /** The values of the first k slots, all occupied. */
  ghost function Values(a: array<StateCensus?>, k: nat): (vs: seq<Record>)
    requires k <= a.Length
    requires forall i :: 0 <= i < k ==> a[i] != null
    reads a, a[..k]
    ensures |vs| == k && forall i :: 0 <= i < k ==> vs[i] == a[i].Value()
  {
    if k == 0 then [] else Values(a, k - 1) + [a[k - 1].Value()]
  }

  /** Extending the occupied prefix by one slot appends that slot's value. */
  lemma ValuesNext(a: array<StateCensus?>, k: nat)
    requires k < a.Length
    requires forall i :: 0 <= i <= k ==> a[i] != null
    ensures Values(a, k + 1) == Values(a, k) + [a[k].Value()]
  {
  }

  /** The number of slots before the first null one. */
  function OccupiedCount(a: array<StateCensus?>): (k: nat)
    reads a
    ensures k <= a.Length
    ensures forall i :: 0 <= i < k ==> a[i] != null
    ensures k < a.Length ==> a[k] == null
  {
    OccupiedFrom(a, 0)
  }

  function OccupiedFrom(a: array<StateCensus?>, from: nat): (k: nat)
    requires from <= a.Length
    requires forall i :: 0 <= i < from ==> a[i] != null
    reads a
    ensures from <= k <= a.Length
    ensures forall i :: 0 <= i < k ==> a[i] != null
    ensures k < a.Length ==> a[k] == null
    decreases a.Length - from
  {
    if from == a.Length || a[from] == null then from else OccupiedFrom(a, from + 1)
  }

  /** The array holds the accumulators `acc` in its first slots and null in
      the rest. */
  ghost predicate Holds(a: array<StateCensus?>, acc: seq<Record>)
    reads a, a[..]
  {
    && |acc| <= a.Length
    && (forall i :: 0 <= i < |acc| ==> a[i] != null && a[i].Value() == acc[i])
    && (forall i :: |acc| <= i < a.Length ==> a[i] == null)
  }

  /** An array holding `acc` has exactly |acc| occupied slots, whose values
      are `acc`. */
  lemma HoldsOccupied(a: array<StateCensus?>, acc: seq<Record>)
    requires Holds(a, acc)
    ensures OccupiedCount(a) == |acc|
    ensures Values(a, |acc|) == acc
  {
    var k := OccupiedCount(a);
    assert k < a.Length ==> a[k] == null;
    assert |acc| < a.Length ==> a[|acc|] == null;
  }

  /** The scan of readCensusData over the occupied slots of an array holding
      `acc`: the first slot holding the state code, or `allocatedLength` when
      none does. */
  method FindState(census: array<StateCensus?>, allocatedLength: nat, code: int, ghost acc: seq<Record>)
    returns (i: nat)
    requires Holds(census, acc) && allocatedLength == |acc|
    ensures i == IndexOfCode(acc, code)
  {
    i := 0;
    while i < allocatedLength && census[i].stateCode != code
      invariant 0 <= i <= allocatedLength
      invariant forall j :: 0 <= j < i ==> acc[j].code != code
    {
      assert census[i].Value() == acc[i];
      i := i + 1;
    }
    assert i < allocatedLength ==> census[i].Value() == acc[i];
  }

  /** The result readCensusData should produce for these lines and limit. */
  function Expected(lines: seq<string>, numRecords: int): Result<seq<Record>, CensusError> {
    Aggregate(lines[..Processed(|lines|, numRecords)])
  }

  /** The array holds `acc` in distinct objects. */
  ghost predicate Stored(a: array<StateCensus?>, acc: seq<Record>)
    reads a, a[..]
  {
    && Holds(a, acc)
    && (forall i, j :: 0 <= i < j < |acc| ==> a[i] != a[j])
  }

  /** One pass of readCensusData's loop over `line`: the array moves from
      `acc` to Step(acc, line), or the step's error is returned. */
  method Absorb(census: array<StateCensus?>, allocatedLength: nat, line: string, ghost acc: seq<Record>)
    returns (res: Result<nat, CensusError>, ghost next: seq<Record>)
    requires census.Length == Capacity && allocatedLength == |acc|
    requires Stored(census, acc)
    modifies census, census[..]
    ensures res.Success? <==> Step(acc, line).Success?
    ensures res.Failure? ==> res.error == Step(acc, line).error
    ensures res.Success? ==> Step(acc, line) == Success(next) && res.value == |next| && Stored(census, next)
    ensures forall i :: 0 <= i < census.Length && census[i] != old(census[i]) ==> fresh(census[i])
  {
    next := acc;
    var parsed := StateCensus.Parse(line);
    if parsed.Failure? {
      StepParseFails(acc, line);
      return Failure(parsed.error), next;
    }
    var censusItem := parsed.value;
    ghost var r := censusItem.Value();

    var i := FindState(census, allocatedLength, censusItem.stateCode, acc);

    if i < allocatedLength {
      var outcome := census[i].PopulationIncrementer(
        censusItem.totalPopulation, censusItem.childPopulation, censusItem.childPovertyPopulation);
      if outcome.Fail? {
        StepMergeFails(acc, line, r);
        return Failure(outcome.error), next;
      }
      next := acc[i := census[i].Value()];
      StepMerges(acc, line, r, census[i].Value());
      return Success(allocatedLength), next;
    }
    StepAppends(acc, line, r);
    if allocatedLength == census.Length {
      return Failure(ArrayIndexOutOfBounds(allocatedLength, census.Length)), next;
    }
    census[allocatedLength] := censusItem;
    next := acc + [censusItem.Value()];
    return Success(allocatedLength + 1), next;
  }

  /** readCensusData: reads up to numRecords lines in order, and for each one
      either increments the slot that already holds its state code or stores
      the parsed object in the next free slot. Any error ends the read. */
  method ReadCensusData(lines: seq<string>, numRecords: int)
    returns (res: Result<array<StateCensus?>, CensusError>)
    ensures res.Success? <==> Expected(lines, numRecords).Success?
    ensures res.Failure? ==> res.error == Expected(lines, numRecords).error
    ensures res.Success? ==>
      && fresh(res.value)
      && res.value.Length == Capacity
      && Holds(res.value, Expected(lines, numRecords).value)
      && (forall i :: 0 <= i < Capacity && res.value[i] != null ==> fresh(res.value[i]))
  {
    var census := new StateCensus?[Capacity](_ => null);
    var allocatedLength := 0;
    var counter := 0;
    ghost var acc: seq<Record> := [];
    ghost var n := Processed(|lines|, numRecords);
    while counter < |lines| && counter < numRecords
      invariant 0 <= counter <= n
      invariant Aggregate(lines[..counter]) == Success(acc)
      invariant census.Length == Capacity && allocatedLength == |acc|
      invariant Stored(census, acc)
      invariant forall i :: 0 <= i < Capacity && census[i] != null ==> fresh(census[i])
    {
      var step;
      ghost var next;
      step, next := Absorb(census, allocatedLength, lines[counter], acc);
      if step.Failure? {
        StepAborts(lines, acc, counter, n);
        return Failure(step.error);
      }
      AggregateNext(lines, counter, acc);
      allocatedLength := step.value;
      acc := next;
      counter := counter + 1;
    }
    assert counter == n;
    return Success(census);
  }

  /** writeDataToFile: for each slot up to the first null one, the state code,
      total, child and poverty counts as `int`s, then the percentage. */
  method WriteDataToFile(census: array<StateCensus?>, percent: Record -> Bits64)
    returns (bytes: seq<Byte>)
    ensures bytes == EncodeRecords(Values(census, OccupiedCount(census)), percent)
    ensures |bytes| == RecordSize * OccupiedCount(census)
  {
    bytes := [];
    var i := 0;
    ghost var k := OccupiedCount(census);
    while i < census.Length && census[i] != null
      invariant 0 <= i <= k
      invariant forall j :: 0 <= j < i ==> census[j] != null
      invariant bytes == EncodeRecords(Values(census, i), percent)
    {
      var sc := census[i].Value();
      ValuesNext(census, i);
      bytes := bytes + EncodeRecord(sc, percent(sc));
      i := i + 1;
    }
    assert i == k;
  }

  /** writeDataToFile on an array holding `acc`: the encoding of `acc`. */
  method WriteAccumulators(census: array<StateCensus?>, ghost acc: seq<Record>, percent: Record -> Bits64)
    returns (bytes: seq<Byte>)
    requires Holds(census, acc)
    ensures bytes == EncodeRecords(acc, percent)
  {
    HoldsOccupied(census, acc);
    bytes := WriteDataToFile(census, percent);
  }

  /** The analyzer's two steps in sequence: read and aggregate, then write. */
  method Analyze(lines: seq<string>, numRecords: int, percent: Record -> Bits64)
    returns (res: Result<seq<Byte>, CensusError>)
    ensures res.Success? <==> Expected(lines, numRecords).Success?
    ensures res.Failure? ==> res.error == Expected(lines, numRecords).error
    ensures res.Success? ==> res.value == EncodeRecords(Expected(lines, numRecords).value, percent)
  {
    var stateCensus :- ReadCensusData(lines, numRecords);
    var bytes := WriteAccumulators(stateCensus, Expected(lines, numRecords).value, percent);
    return Success(bytes);
  }
}
