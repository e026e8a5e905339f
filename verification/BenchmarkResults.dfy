/** The result reader and the timing converter: every benchmark line becomes one numbered row, and every
    row carries exactly the measurements its scenario reports. */
module BenchmarkResults {
  import opened Wrappers
  import opened Grouping
  import opened BenchmarkText

  /** One whitespace-separated field of a line; `number` is its value as a float, if it has one. */
  datatype Token = Token(text: string, number: Option<real>)

  type Line = seq<Token>

  type Measurements = map<string, real>

  datatype ResultRow = ResultRow(
    rowType: string, algorithm: string, operation: string, parameter: string, parameterValue: Option<int>, run: nat)

  /** What a benchmark line says before it is numbered. */
  datatype Reading = Reading(identity: Identity, baseline: bool, measurements: Measurements)

  // ---- one line ----------------------------------------------------------------------------

  function ParameterOf(scenario: Scenario, algorithm: string): string {
    if scenario == CpabeRsa then
      if algorithm == "CPABEAttributes" then "attribute_count"
      else if algorithm == "RSASubscribers" then "subscriber_count"
      else "rsa_key_bits"
    else "payload_size"
  }

  function OperationOf(operation: string): string {
    if operation == "MemoryEncrypt" then "Encrypt" else if operation == "MemoryDecrypt" then "Decrypt" else operation
  }

  predicate IsBaseline(name: CaseName) {
    name.algorithm == "Runtime" && name.operation == "MemoryBaseline"
  }

  function IdentityOf(scenario: Scenario, name: CaseName): Identity {
    Identity(name.algorithm, OperationOf(name.operation),
             if IsBaseline(name) then "" else ParameterOf(scenario, name.algorithm), name.parameterValue)
  }

  /** The value and unit pairs from field `index` on; a later pair of the same unit replaces an earlier one. */
  function Pairs(fields: Line, index: nat): Result<Measurements, Failure>
    decreases |fields| - index
  {
    if index >= |fields| then Ok(map[])
    else if index + 1 == |fields| then Err(IndexError)
    else if fields[index].number.None? then Err(ValueError)
    else
      match Pairs(fields, index + 2)
      case Err(e) => Err(e)
      case Ok(rest) => Ok(map[fields[index + 1].text := fields[index].number.value] + rest)
  }

  predicate Starts(s: string, prefix: string) {
    prefix <= s
  }

  /** A line that is not a result is skipped, a malformed result line ends the reading. */
  function ReadLine(scenario: Scenario, prefix: string, line: Line): Result<Option<Reading>, Failure> {
    if line == [] || !Starts(line[0].text, prefix) then Ok(None)
    else
      match ParseName(line[0].text[|prefix|..])
      case Err(e) => Err(e)
      case Ok(name) =>
        match Pairs(line, 2)
        case Err(e) => Err(e)
        case Ok(measurements) => Ok(Some(Reading(IdentityOf(scenario, name), IsBaseline(name), measurements)))
  }

  /** A unit's measurement is the value before its last mention. */
  lemma {:induction false} PairsLast(fields: Line, index: nat, u: nat)
    requires Pairs(fields, index).Ok? && index % 2 == 0 && u % 2 == 1 && index < u < |fields|
    requires forall v :: u < v < |fields| && v % 2 == 1 ==> fields[v].text != fields[u].text
    ensures fields[u - 1].number.Some?
    ensures var measured := Pairs(fields, index).value;
            fields[u].text in measured && measured[fields[u].text] == fields[u - 1].number.value
    decreases |fields| - index
  {
    if index + 1 < u {
      PairsLast(fields, index + 2, u);
    } else {
      PairsNone(fields, index + 2, fields[u].text);
    }
  }

  /** A unit the line does not mention is not measured. */
  lemma {:induction false} PairsNone(fields: Line, index: nat, unit: string)
    requires Pairs(fields, index).Ok? && index % 2 == 0
    requires forall v :: index < v < |fields| && v % 2 == 1 ==> fields[v].text != unit
    ensures unit !in Pairs(fields, index).value
    decreases |fields| - index
  {
    if index < |fields| {
      PairsNone(fields, index + 2, unit);
    }
  }

  /** The pairs are read exactly when every value has its unit behind it and is a number; otherwise a value that has
      a unit and is no number is a ValueError, and a unit that alone is missing an IndexError. */
  lemma {:induction false} PairsRead(fields: Line, index: nat)
    requires index % 2 == 0
    ensures Pairs(fields, index).Ok? <==>
              && (index < |fields| ==> |fields| % 2 == 0)
              && forall i :: index <= i < |fields| && i % 2 == 0 ==> fields[i].number.Some?
    ensures Pairs(fields, index).Err? ==>
              Pairs(fields, index).error ==
              if exists i :: index <= i < |fields| - 1 && i % 2 == 0 && fields[i].number.None?
              then ValueError else IndexError
    decreases |fields| - index
  {
    if index < |fields| {
      PairsRead(fields, index + 2);
    }
  }

  /** A result line of a scenario as the benchmark runner prints it: its name, an iteration count, and pairs of a value
      and its unit. */
  ghost predicate ResultLine(scenario: Scenario, line: Line, operation: string, algorithm: string, value: nat) {
    && line != [] && |line| % 2 == 0 && '/' !in operation && '/' !in algorithm
    && (forall i :: 2 <= i < |line| && i % 2 == 0 ==> line[i].number.Some?)
    && exists end :: end in {"", "B"} &&
         exists processors: Option<nat> ::
           line[0].text ==
           (match scenario
            case AesAscon => "BenchmarkAESASCON"
            case JsonCbor => "BenchmarkMessage"
            case CpabeRsa => "BenchmarkCPABERSA"
            case FullSchema => "BenchmarkFullSchema"
            case Unknown(name) => name)
           + (operation + "/" + algorithm + "/" + Numeral(value) + end
              + if processors.Some? then "-" + Numeral(processors.value) else "")
  }

  /** What a reader knows such a line by. */
  function PrintedIdentity(scenario: Scenario, operation: string, algorithm: string, value: nat): Identity {
    Identity(
      algorithm,
      if operation == "MemoryEncrypt" then "Encrypt" else if operation == "MemoryDecrypt" then "Decrypt" else operation,
      if algorithm == "Runtime" && operation == "MemoryBaseline" then ""
      else if scenario != CpabeRsa then "payload_size"
      else if algorithm == "CPABEAttributes" then "attribute_count"
      else if algorithm == "RSASubscribers" then "subscriber_count"
      else "rsa_key_bits",
      value)
  }

  /** A printed name in plain concatenation. */
  lemma PrintedAsText(c: CaseName, unit: bool, processors: Option<nat>)
    ensures PrintName(c, unit, processors)
            == c.operation + "/" + c.algorithm + "/" + Numeral(c.parameterValue) + (if unit then "B" else "")
               + if processors.Some? then "-" + Numeral(processors.value) else ""
  {
    hide Numeral;
    var shown := WithProcessors(WithUnit(c.parameterValue, unit), processors);
    assert [c.operation, c.algorithm, shown][1..] == [c.algorithm, shown] && [c.algorithm, shown][1..] == [shown];
    assert Join([c.algorithm, shown], '/') == c.algorithm + ['/'] + shown;
    assert PrintName(c, unit, processors) == c.operation + "/" + c.algorithm + "/" + shown;
    var end, tail := if unit then "B" else "", if processors.Some? then "-" + Numeral(processors.value) else "";
    assert shown == Numeral(c.parameterValue) + end + tail;
  }

  lemma NameAsText(operation: string, algorithm: string, value: nat, end: string, processors: Option<nat>)
    requires '/' !in operation && '/' !in algorithm && end in {"", "B"}
    ensures ParseName(operation + "/" + algorithm + "/" + Numeral(value) + end
                      + if processors.Some? then "-" + Numeral(processors.value) else "")
            == Ok(CaseName(operation, algorithm, value))
  {
    hide ParseName, Numeral, PrintName;
    var c, unit := CaseName(operation, algorithm, value), end == "B";
    assert end == if unit then "B" else "";
    NameRoundTrip(c, unit, processors);
    PrintedAsText(c, unit, processors);
  }

  /** The reader takes such a line for what it is, and each unit has the value before its last mention. */
  lemma ResultLineIsRead(scenario: Scenario, line: Line, operation: string, algorithm: string, value: nat)
    requires !scenario.Unknown? && ResultLine(scenario, line, operation, algorithm, value)
    ensures CasePrefix(scenario).Some?
    ensures var read := ReadLine(scenario, CasePrefix(scenario).value, line);
            && read.Ok? && read.value.Some?
            && var reading := read.value.value;
               && reading.identity == PrintedIdentity(scenario, operation, algorithm, value)
               && (reading.baseline <==> algorithm == "Runtime" && operation == "MemoryBaseline")
               && forall u :: 3 <= u < |line| && u % 2 == 1
                              && (forall v :: u < v < |line| && v % 2 == 1 ==> line[v].text != line[u].text) ==>
                    line[u].text in reading.measurements
                    && line[u - 1].number == Some(reading.measurements[line[u].text])
  {
    hide ParseName;
    var prefix := CasePrefix(scenario).value;
    var end, processors: Option<nat> :|
      end in {"", "B"} &&
      line[0].text ==
      prefix + (operation + "/" + algorithm + "/" + Numeral(value) + end
                + if processors.Some? then "-" + Numeral(processors.value) else "");
    NameAsText(operation, algorithm, value, end, processors);
    var name := operation + "/" + algorithm + "/" + Numeral(value) + end
                + if processors.Some? then "-" + Numeral(processors.value) else "";
    assert line[0].text[|prefix|..] == name;
    PairsRead(line, 2);
    forall u | 3 <= u < |line| && u % 2 == 1
               && (forall v :: u < v < |line| && v % 2 == 1 ==> line[v].text != line[u].text)
      ensures line[u].text in Pairs(line, 2).value
      ensures line[u - 1].number == Some(Pairs(line, 2).value[line[u].text])
    {
      PairsLast(line, 2, u);
    }
  }

  // ---- all lines ---------------------------------------------------------------------------

  /** What the reader has handed on, and the failure that ended it, if one did. */
  datatype Yielded = Yielded(readings: seq<Reading>, failure: Option<Failure>)

  /** The result lines in order, up to the first malformed one. */
  function Readings(scenario: Scenario, prefix: string, lines: seq<Line>): Yielded {
    if lines == [] then Yielded([], None)
    else
      var before := Readings(scenario, prefix, lines[..|lines| - 1]);
      if before.failure.Some? then before
      else
        match ReadLine(scenario, prefix, lines[|lines| - 1])
        case Err(e) => before.(failure := Some(e))
        case Ok(None) => before
        case Ok(Some(reading)) => before.(readings := before.readings + [reading])
  }

  function Occurrences(readings: seq<Reading>, identity: Identity): nat {
    if readings == [] then 0
    else Occurrences(readings[..|readings| - 1], identity) + if readings[|readings| - 1].identity == identity then 1 else 0
  }

  function RowOf(reading: Reading, run: nat): ResultRow {
    var id := reading.identity;
    if reading.baseline then ResultRow("baseline", "", "", id.parameter, None, run)
    else ResultRow("workload", id.algorithm, id.operation, id.parameter, Some(id.parameterValue), run)
  }

  /** The rows of the readings: each numbered with how often its identity has occurred, itself included. */
  function Numbered(readings: seq<Reading>): seq<(ResultRow, Measurements)> {
    if readings == [] then []
    else
      var last := readings[|readings| - 1];
      Numbered(readings[..|readings| - 1]) + [(RowOf(last, Occurrences(readings, last.identity)), last.measurements)]
  }

  /** The run counter: a dictionary that counts each identity as its lines go by.  The rows before a
      malformed line have been handed on when the failure is raised. */
  method ReadBenchmarkResults(lines: seq<Line>, scenario: Scenario)
    returns (rows: seq<(ResultRow, Measurements)>, failure: Option<Failure>)
    ensures CasePrefix(scenario).None? ==> rows == [] && failure == Some(ValueError)
    ensures CasePrefix(scenario).Some? ==>
              var yielded := Readings(scenario, CasePrefix(scenario).value, lines);
              rows == Numbered(yielded.readings) && failure == yielded.failure
  {
    if CasePrefix(scenario).None? {
      return [], Some(ValueError);
    }
    var prefix := CasePrefix(scenario).value;
    var runs: map<Identity, nat> := map[];
    rows, failure := [], None;
    ghost var readings: seq<Reading> := [];
    hide ReadLine, Occurrences, Counts;
    CountsNothing();
    for n := 0 to |lines|
      invariant Readings(scenario, prefix, lines[..n]) == Yielded(readings, None) && failure == None
      invariant rows == Numbered(readings) && Counts(runs, readings)
    {
      assert lines[..n + 1][..n] == lines[..n];
      match ReadLine(scenario, prefix, lines[n]) {
        case Err(e) =>
          FailureStays(scenario, prefix, lines, n + 1);
          return rows, Some(e);
        case Ok(None) =>
        case Ok(Some(reading)) =>
          var row;
          runs, row := Count(runs, reading, readings);
          rows := rows + [(row, reading.measurements)];
          readings := readings + [reading];
      }
    }
    assert lines[..|lines|] == lines;
  }

  /** The counter dictionary agrees with the lines so far. */
  ghost predicate Counts(runs: map<Identity, nat>, readings: seq<Reading>) {
    forall id :: (if id in runs then runs[id] else 0) == Occurrences(readings, id)
  }

  lemma CountsNothing()
    ensures Counts(map[], [])
  {
  }

  method Count(runs: map<Identity, nat>, reading: Reading, ghost readings: seq<Reading>)
    returns (counted: map<Identity, nat>, row: ResultRow)
    requires Counts(runs, readings)
    ensures Counts(counted, readings + [reading])
    ensures Numbered(readings + [reading]) == Numbered(readings) + [(row, reading.measurements)]
  {
    var id := reading.identity;
    assert (readings + [reading])[..|readings|] == readings;
    counted := runs[id := (if id in runs then runs[id] else 0) + 1];
    row := RowOf(reading, counted[id]);
  }

  lemma {:induction false} FailureStays(scenario: Scenario, prefix: string, lines: seq<Line>, n: nat)
    requires n <= |lines| && Readings(scenario, prefix, lines[..n]).failure.Some?
    ensures Readings(scenario, prefix, lines) == Readings(scenario, prefix, lines[..n])
    decreases |lines| - n
  {
    if n < |lines| {
      assert lines[..n + 1][..n] == lines[..n];
      FailureStays(scenario, prefix, lines, n + 1);
    } else {
      assert lines[..n] == lines;
    }
  }

  // ---- numbering is a stable group-by ------------------------------------------------------

  /** The rows of the readings, labelled with their identities. */
  function Labelled(readings: seq<Reading>): seq<(Identity, (ResultRow, Measurements))> {
    if readings == [] then []
    else
      var n := |readings| - 1;
      Labelled(readings[..n]) + [(readings[n].identity, Numbered(readings)[|Numbered(readings)| - 1])]
  }

  lemma {:induction false} LabelledShape(readings: seq<Reading>)
    ensures |Labelled(readings)| == |Numbered(readings)| == |readings|
    ensures forall i :: 0 <= i < |readings| ==>
              Labelled(readings)[i] == (readings[i].identity, Numbered(readings)[i])
    ensures forall i :: 0 <= i < |readings| ==>
              Numbered(readings)[i].0 == RowOf(readings[i], Numbered(readings)[i].0.run)
              && Numbered(readings)[i].1 == readings[i].measurements
  {
    if readings != [] {
      LabelledShape(readings[..|readings| - 1]);
    }
  }

  /** The runs of each identity are 1, 2, 3, ... in input order, and no line of it is missing. */
  lemma {:induction false} RunsAreConsecutive(readings: seq<Reading>, id: Identity)
    ensures |Select(Labelled(readings), id)| == Occurrences(readings, id)
    ensures forall k :: 0 <= k < |Select(Labelled(readings), id)| ==> Select(Labelled(readings), id)[k].0.run == k + 1
  {
    if readings != [] {
      var n := |readings| - 1;
      RunsAreConsecutive(readings[..n], id);
      SelectAppend(Labelled(readings[..n]), (readings[n].identity, Numbered(readings)[|Numbered(readings)| - 1]), id);
    }
  }

  // ---- the lines of an identity ------------------------------------------------------------

  /** The lines of an identity, in input order. */
  function LinesOf(readings: seq<Reading>, id: Identity): seq<Reading> {
    if readings == [] then []
    else
      var last := readings[|readings| - 1];
      LinesOf(readings[..|readings| - 1], id) + if last.identity == id then [last] else []
  }

  predicate IsBaselineIdentity(id: Identity) {
    id.algorithm == "Runtime" && id.operation == "MemoryBaseline"
  }

  /** Whether a line is a baseline is seen from its identity, and a baseline has no parameter. */
  predicate Consistent(readings: seq<Reading>) {
    forall i :: 0 <= i < |readings| ==>
      && (readings[i].baseline <==> IsBaselineIdentity(readings[i].identity))
      && (readings[i].baseline ==> readings[i].identity.parameter == "")
  }

  lemma {:induction false} ReadingsAreConsistent(scenario: Scenario, prefix: string, lines: seq<Line>)
    ensures Consistent(Readings(scenario, prefix, lines).readings)
  {
    if lines != [] {
      ReadingsAreConsistent(scenario, prefix, lines[..|lines| - 1]);
      LineIsConsistent(scenario, prefix, lines[|lines| - 1]);
      hide ReadLine, IsBaselineIdentity;
    }
  }

  lemma LineIsConsistent(scenario: Scenario, prefix: string, line: Line)
    ensures var read := ReadLine(scenario, prefix, line);
            read.Ok? && read.value.Some? ==>
              && (read.value.value.baseline <==> IsBaselineIdentity(read.value.value.identity))
              && (read.value.value.baseline ==> read.value.value.identity.parameter == "")
  {
    hide ParseName, Pairs;
  }

  lemma {:induction false} RowIsNumbered(readings: seq<Reading>, i: nat)
    requires i < |readings|
    ensures |Numbered(readings)| == |readings|
    ensures Numbered(readings)[i] ==
            (RowOf(readings[i], Occurrences(readings[..i + 1], readings[i].identity)), readings[i].measurements)
  {
    var n := |readings| - 1;
    LabelledShape(readings);
    LabelledShape(readings[..n]);
    if i < n {
      RowIsNumbered(readings[..n], i);
      assert readings[..n][..i + 1] == readings[..i + 1];
    } else {
      assert readings[..i + 1] == readings;
    }
    hide RowOf, Occurrences;
  }

  /** The row of a line: a baseline's is empty but for its run, any other is the line's identity; its run is how often
      that identity has occurred so far, and its measurements are the line's. */
  lemma RowOfLine(scenario: Scenario, prefix: string, lines: seq<Line>, i: nat)
    requires i < |Readings(scenario, prefix, lines).readings|
    ensures var readings := Readings(scenario, prefix, lines).readings;
            var id, numbered := readings[i].identity, Numbered(readings);
            && |numbered| == |readings|
            && numbered[i].1 == readings[i].measurements
            && numbered[i].0.run == Occurrences(readings[..i + 1], id)
            && if IsBaselineIdentity(id) then numbered[i].0 == ResultRow("baseline", "", "", "", None, numbered[i].0.run)
               else numbered[i].0 == ResultRow("workload", id.algorithm, id.operation, id.parameter,
                                               Some(id.parameterValue), numbered[i].0.run)
  {
    ReadingsAreConsistent(scenario, prefix, lines);
    RowIsNumbered(Readings(scenario, prefix, lines).readings, i);
    hide Readings, Numbered, Occurrences, IsBaselineIdentity;
  }

  /** A whole number that a real number is cut down to, towards nought. */
  ghost predicate IntegerPart(x: real, whole: real) {
    && whole == whole.Floor as real
    && (x >= 0.0 ==> whole <= x < whole + 1.0)
    && (x < 0.0 ==> whole - 1.0 < x <= whole)
  }
}
