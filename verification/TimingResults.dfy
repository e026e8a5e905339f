/** Converting timing results to rows and loading the rows again: which measurements survive, with which
    values, and under which numbers. */
module TimingResults {
  import opened Wrappers
  import opened Grouping
  import opened BenchmarkText
  import opened BenchmarkResults
  import opened RunSummary

  datatype Measurement =
    | NsPerOp | Throttled | MbPerSecond | SerializedBytes | RawBytes | CiphertextBytes | TotalCiphertextBytes
    | StoredKeyBytes

  /** The unit a measurement has in the benchmark's text, which is also its key in a loaded case. */
  function Unit(m: Measurement): string {
    match m
    case NsPerOp => "ns/op"
    case Throttled => "throttled"
    case MbPerSecond => "MB/s"
    case SerializedBytes => "serialized_bytes"
    case RawBytes => "raw_bytes"
    case CiphertextBytes => "ciphertext_bytes"
    case TotalCiphertextBytes => "total_ciphertext_bytes"
    case StoredKeyBytes => "stored_key_bytes"
  }

  /** A timing row: the two fixed columns and the optional ones that were written. */
  datatype TimingRow = TimingRow(row: ResultRow, nsPerOp: real, throttled: int, columns: map<Measurement, real>)

  datatype TimingCase = TimingCase(run: nat, measurements: map<Measurement, real>)

  /** Python's int() of a float. */
  function Trunc(x: real): int {
    if x >= 0.0 then x.Floor else -(-x).Floor
  }

  // ---- what a report needs -----------------------------------------------------------------

  /** Which results report a measurement. */
  predicate Reports(scenario: Scenario, algorithm: string, operation: string, m: Measurement) {
    match m
    case NsPerOp | Throttled => true
    case MbPerSecond => scenario == AesAscon
    case SerializedBytes =>
      (scenario == JsonCbor && operation == "Serialize") || (scenario == FullSchema && operation == "Encrypt")
    case RawBytes => scenario == JsonCbor && operation == "Serialize" && algorithm == "JSON"
    case CiphertextBytes => scenario == CpabeRsa && operation == "Encrypt"
    case TotalCiphertextBytes => scenario == CpabeRsa && operation == "Encrypt" && algorithm == "RSASubscribers"
    case StoredKeyBytes => scenario == CpabeRsa && operation != "Encrypt" && algorithm == "CPABEAttributes"
  }

  /** Times and rates keep their fraction, flags and sizes are whole numbers. */
  function Stored(m: Measurement, x: real): real {
    if m == NsPerOp || m == MbPerSecond then x else Trunc(x) as real
  }

  ghost predicate Complete(scenario: Scenario, row: ResultRow, measured: Measurements) {
    forall m: Measurement | Reports(scenario, row.algorithm, row.operation, m) :: Unit(m) in measured
  }

  /** The case a report needs: exactly the reported measurements. */
  ghost function Needed(scenario: Scenario, row: ResultRow, measured: Measurements): TimingCase
    requires Complete(scenario, row, measured)
  {
    TimingCase(row.run, map m: Measurement | Reports(scenario, row.algorithm, row.operation, m) ::
                          Stored(m, measured[Unit(m)]))
  }

  // ---- converter ---------------------------------------------------------------------------

  /** The optional columns written so far. */
  ghost predicate Holds(columns: map<Measurement, real>, measured: Measurements, written: set<Measurement>) {
    && columns.Keys == written
    && forall m <- written :: Unit(m) in measured && columns[m] == Stored(m, measured[Unit(m)])
  }

  /** One lookup and one assignment to the row dictionary; a missing measurement is a KeyError. */
  method AddColumn(columns: map<Measurement, real>, m: Measurement, measured: Measurements,
                   ghost written: set<Measurement>)
    returns (r: Result<map<Measurement, real>, Failure>)
    requires Holds(columns, measured, written)
    ensures r.Ok? <==> Unit(m) in measured
    ensures r.Ok? ==> Holds(r.value, measured, written + {m})
    ensures r.Err? ==> r.error == KeyError
  {
    if Unit(m) !in measured {
      return Err(KeyError);
    }
    return Ok(columns[m := Stored(m, measured[Unit(m)])]);
  }

  /** The columns beside the two fixed ones, scenario by scenario as the reports need them. */
  ghost function Optional(scenario: Scenario, algorithm: string, operation: string): set<Measurement> {
    set m: Measurement | Reports(scenario, algorithm, operation, m) && m != NsPerOp && m != Throttled
  }

  method AddColumns(scenario: Scenario, algorithm: string, operation: string, measured: Measurements)
    returns (r: Result<map<Measurement, real>, Failure>)
    ensures r.Ok? <==> forall m <- Optional(scenario, algorithm, operation) :: Unit(m) in measured
    ensures r.Ok? ==> Holds(r.value, measured, Optional(scenario, algorithm, operation))
    ensures r.Err? ==> r.error == KeyError
  {
    hide Unit, Holds;
    ghost var wanted := Optional(scenario, algorithm, operation);
    assert Holds(map[], measured, {}) by { HoldsNothing(measured); }
    r := Ok(map[]);
    if scenario == AesAscon {
      assert wanted == {} + {MbPerSecond};
      r := AddColumn(map[], MbPerSecond, measured, {});
    } else if scenario == JsonCbor && operation == "Serialize" {
      r := AddColumn(map[], SerializedBytes, measured, {});
      if algorithm == "JSON" {
        assert wanted == {} + {SerializedBytes} + {RawBytes};
        if r.Ok? {
          r := AddColumn(r.value, RawBytes, measured, {} + {SerializedBytes});
        }
      } else {
        assert wanted == {} + {SerializedBytes};
      }
    } else if scenario == CpabeRsa {
      if operation == "Encrypt" {
        r := AddColumn(map[], CiphertextBytes, measured, {});
        if algorithm == "RSASubscribers" {
          assert wanted == {} + {CiphertextBytes} + {TotalCiphertextBytes};
          if r.Ok? {
            r := AddColumn(r.value, TotalCiphertextBytes, measured, {} + {CiphertextBytes});
          }
        } else {
          assert wanted == {} + {CiphertextBytes};
        }
      } else if algorithm == "CPABEAttributes" {
        assert wanted == {} + {StoredKeyBytes};
        r := AddColumn(map[], StoredKeyBytes, measured, {});
      } else {
        assert wanted == {};
      }
    } else if scenario == FullSchema && operation == "Encrypt" {
      assert wanted == {} + {SerializedBytes};
      r := AddColumn(map[], SerializedBytes, measured, {});
    } else {
      assert wanted == {};
    }
  }

  lemma HoldsNothing(measured: Measurements)
    ensures Holds(map[], measured, {})
  {
  }

  /** The case that loading a row gives. */
  ghost function LoadedCase(row: TimingRow): TimingCase {
    TimingCase(row.row.run, row.columns[NsPerOp := row.nsPerOp][Throttled := row.throttled as real])
  }

  lemma ConvertedThenLoaded(scenario: Scenario, row: ResultRow, measured: Measurements, columns: map<Measurement, real>)
    requires "ns/op" in measured && "throttled" in measured
    requires Holds(columns, measured, Optional(scenario, row.algorithm, row.operation))
    ensures Complete(scenario, row, measured)
    ensures LoadedCase(TimingRow(row, measured["ns/op"], Trunc(measured["throttled"]), columns)) ==
            Needed(scenario, row, measured)
  {
    assert Unit(NsPerOp) == "ns/op" && Unit(Throttled) == "throttled";
    forall m: Measurement | Reports(scenario, row.algorithm, row.operation, m)
      ensures Unit(m) in measured
    {
      assert m == NsPerOp || m == Throttled || m in Optional(scenario, row.algorithm, row.operation);
    }
    var loaded := LoadedCase(TimingRow(row, measured["ns/op"], Trunc(measured["throttled"]), columns));
    var needed := Needed(scenario, row, measured);
    assert loaded.measurements.Keys == needed.measurements.Keys;
    assert forall m <- needed.measurements :: loaded.measurements[m] == needed.measurements[m];
  }

  /** Converts one row.  It fails exactly when a reported measurement is missing, and loading the row it
      writes gives the reported measurements and no others. */
  method ConvertRow(scenario: Scenario, row: ResultRow, measured: Measurements) returns (r: Result<TimingRow, Failure>)
    ensures r.Ok? <==> Complete(scenario, row, measured)
    ensures r.Ok? ==> r.value.row == row && LoadedCase(r.value) == Needed(scenario, row, measured)
    ensures r.Err? ==> r.error == KeyError
  {
    if "ns/op" !in measured || "throttled" !in measured {
      assert Unit(NsPerOp) == "ns/op" && Unit(Throttled) == "throttled";
      return Err(KeyError);
    }
    var columns := AddColumns(scenario, row.algorithm, row.operation, measured);
    if columns.Err? {
      assert forall m <- Optional(scenario, row.algorithm, row.operation) ::
          Reports(scenario, row.algorithm, row.operation, m);
      return Err(columns.error);
    }
    ConvertedThenLoaded(scenario, row, measured, columns.value);
    return Ok(TimingRow(row, measured["ns/op"], Trunc(measured["throttled"]), columns.value));
  }

  /** The rows of the reader, converted one after another. */
  ghost predicate Converts(scenario: Scenario, numbered: seq<(ResultRow, Measurements)>, rows: seq<TimingRow>) {
    && |rows| == |numbered|
    && forall i :: 0 <= i < |rows| ==>
         && rows[i].row == numbered[i].0
         && Complete(scenario, numbered[i].0, numbered[i].1)
         && LoadedCase(rows[i]) == Needed(scenario, numbered[i].0, numbered[i].1)
  }

  ghost predicate AllComplete(scenario: Scenario, numbered: seq<(ResultRow, Measurements)>) {
    forall i :: 0 <= i < |numbered| ==> Complete(scenario, numbered[i].0, numbered[i].1)
  }

  /** Text to rows.  A missing measurement is reported before a later malformed line. */
  method ConvertTimingResults(lines: seq<Line>, scenario: Scenario) returns (r: Result<seq<TimingRow>, Failure>)
    ensures CasePrefix(scenario).None? ==> r == Err(ValueError)
    ensures CasePrefix(scenario).Some? ==>
              var yielded := Readings(scenario, CasePrefix(scenario).value, lines);
              && (r.Ok? <==> yielded.failure.None? && AllComplete(scenario, Numbered(yielded.readings)))
              && (r.Ok? ==> Converts(scenario, Numbered(yielded.readings), r.value))
              && (r.Err? ==> r.error == if AllComplete(scenario, Numbered(yielded.readings))
                                        then yielded.failure.value else KeyError)
  {
    hide Readings, Numbered, Complete, LoadedCase, Needed;
    var numbered, failure := ReadBenchmarkResults(lines, scenario);
    var rows: seq<TimingRow> := [];
    for n := 0 to |numbered|
      invariant Converts(scenario, numbered[..n], rows)
    {
      var row := ConvertRow(scenario, numbered[n].0, numbered[n].1);
      if row.Err? {
        return Err(row.error);
      }
      rows := rows + [row.value];
    }
    assert numbered[..|numbered|] == numbered;
    if failure.Some? {
      return Err(failure.value);
    }
    return Ok(rows);
  }

  // ---- loader ------------------------------------------------------------------------------

  const COLUMNS: seq<Measurement> :=
    [MbPerSecond, SerializedBytes, RawBytes, CiphertextBytes, TotalCiphertextBytes, StoredKeyBytes]

  /** Builds a case from a row: the fixed measurements, then every optional column that is present. */
  method LoadCase(row: TimingRow) returns (item: TimingCase)
    ensures item == LoadedCase(row)
  {
    var measurements: map<Measurement, real> := map[NsPerOp := row.nsPerOp, Throttled := row.throttled as real];
    for n := 0 to |COLUMNS|
      invariant forall m :: m in measurements <==>
                  m == NsPerOp || m == Throttled || (m in row.columns && m in COLUMNS[..n])
      invariant forall m <- measurements :: measurements[m] == LoadedCase(row).measurements[m]
    {
      var column := COLUMNS[n];
      if column in row.columns {
        measurements := measurements[column := row.columns[column]];
      }
      assert COLUMNS[..n + 1] == COLUMNS[..n] + [column];
    }
    item := TimingCase(row.row.run, measurements);
    forall m
      ensures m in measurements <==> m in LoadedCase(row).measurements
    {
      assert COLUMNS[..|COLUMNS|] == COLUMNS;
      EveryColumn(m);
    }
    assert item.measurements == LoadedCase(row).measurements;
  }

  lemma EveryColumn(m: Measurement)
    ensures m == NsPerOp || m == Throttled || m in COLUMNS
  {
    assert COLUMNS[0] == MbPerSecond && COLUMNS[1] == SerializedBytes && COLUMNS[2] == RawBytes;
    assert COLUMNS[3] == CiphertextBytes && COLUMNS[4] == TotalCiphertextBytes && COLUMNS[5] == StoredKeyBytes;
  }

  predicate Loadable(rows: seq<TimingRow>) {
    forall i :: 0 <= i < |rows| ==> rows[i].row.parameterValue.Some?
  }

  function RowIdentity(row: ResultRow): Identity
    requires row.parameterValue.Some?
  {
    Identity(row.algorithm, row.operation, row.parameter, row.parameterValue.value)
  }

  /** What the loader sees: an identity and a case per row. */
  ghost function LoadedRows(rows: seq<TimingRow>): seq<(Identity, TimingCase)>
    requires Loadable(rows)
  {
    if rows == [] then []
    else
      var last := rows[|rows| - 1];
      LoadedRows(rows[..|rows| - 1]) + [(RowIdentity(last.row), LoadedCase(last))]
  }

  lemma LoadedNext(rows: seq<TimingRow>, n: nat)
    requires Loadable(rows) && n < |rows|
    ensures Collect(LoadedRows(rows[..n + 1])) ==
            Insert(Collect(LoadedRows(rows[..n])), RowIdentity(rows[n].row), LoadedCase(rows[n]))
  {
    assert rows[..n + 1][..n] == rows[..n];
    var before, row := LoadedRows(rows[..n]), (RowIdentity(rows[n].row), LoadedCase(rows[n]));
    assert (before + [row])[..|before|] == before;
  }

  lemma NothingLoaded(rows: seq<TimingRow>)
    requires rows == []
    ensures Collect(LoadedRows(rows)) == []
  {
  }

  /** Loads the rows; a baseline row has no parameter value and is refused.  The list then is the stable
      grouping of the rows by identity. */
  method LoadTimingResults(rows: seq<TimingRow>) returns (list: AggregationList<TimingCase>, failure: Option<Failure>)
    ensures failure == if Loadable(rows) then None else Some(ValueError)
    ensures Loadable(rows) ==> list.Shows(GroupBy(LoadedRows(rows)))
  {
    list := new AggregationList<TimingCase>();
    hide AggregationList.Shows, LoadedCase, Insert, RowIdentity, LoadedRows, Collect;
    assert Collect(LoadedRows(rows[..0])) == [] by { NothingLoaded(rows[..0]); }
    for n := 0 to |rows|
      invariant Loadable(rows[..n]) && list.Shows(Collect(LoadedRows(rows[..n])))
      invariant fresh(list) && forall i :: 0 <= i < |list.aggregations| ==> fresh(list.aggregations[i])
    {
      if rows[n].row.parameterValue.None? {
        return list, Some(ValueError);
      }
      var item := LoadCase(rows[n]);
      list.Add(RowIdentity(rows[n].row), item, Collect(LoadedRows(rows[..n])));
      LoadedNext(rows[..n + 1], n);
      assert rows[..n + 1][..n] == rows[..n] && rows[..n + 1][..n + 1] == rows[..n + 1];
    }
    assert rows[..|rows|] == rows;
    CollectIsGroupBy(LoadedRows(rows));
    failure := None;
  }

  // ---- from the text to the summary --------------------------------------------------------

  lemma CompletePrefix(scenario: Scenario, readings: seq<Reading>)
    requires readings != [] && AllComplete(scenario, Numbered(readings))
    ensures |Numbered(readings)| > 0
    ensures var last := Numbered(readings)[|Numbered(readings)| - 1]; Complete(scenario, last.0, last.1)
    ensures AllComplete(scenario, Numbered(readings[..|readings| - 1]))
  {
    var before, all := Numbered(readings[..|readings| - 1]), Numbered(readings);
    assert forall i :: 0 <= i < |before| ==> before[i] == all[i];
  }

  /** The cases of the readings, straight from the text: numbered per identity, with what is reported. */
  ghost function Cases(scenario: Scenario, readings: seq<Reading>): seq<(Identity, TimingCase)>
    requires AllComplete(scenario, Numbered(readings))
  {
    if readings == [] then []
    else
      CompletePrefix(scenario, readings);
      var n := |readings| - 1;
      var last := Numbered(readings)[|Numbered(readings)| - 1];
      Cases(scenario, readings[..n]) + [(readings[n].identity, Needed(scenario, last.0, last.1))]
  }

  predicate Workloads(readings: seq<Reading>) {
    forall i :: 0 <= i < |readings| ==> !readings[i].baseline
  }

  lemma ConvertsLast(scenario: Scenario, readings: seq<Reading>, rows: seq<TimingRow>)
    requires readings != [] && Converts(scenario, Numbered(readings), rows)
    ensures |rows| == |readings|
    ensures Converts(scenario, Numbered(readings[..|readings| - 1]), rows[..|rows| - 1])
    ensures var n := |readings| - 1;
            var last := Numbered(readings)[|Numbered(readings)| - 1];
            && (rows[n].row.parameterValue.Some? <==> !readings[n].baseline)
            && (!readings[n].baseline ==> RowIdentity(rows[n].row) == readings[n].identity)
            && Complete(scenario, last.0, last.1) && LoadedCase(rows[n]) == Needed(scenario, last.0, last.1)
  {
    hide LoadedCase, Needed, Complete, Occurrences;
    LabelledShape(readings);
    LabelledShape(readings[..|readings| - 1]);
    var before, all := Numbered(readings[..|readings| - 1]), Numbered(readings);
    assert forall i :: 0 <= i < |before| ==> before[i] == all[i];
  }

  /** Writing and loading loses nothing: the loader sees the cases of the text. */
  lemma {:induction false} LoadedIsText(scenario: Scenario, readings: seq<Reading>, rows: seq<TimingRow>)
    requires Converts(scenario, Numbered(readings), rows)
    ensures Loadable(rows) <==> Workloads(readings)
    ensures Workloads(readings) ==> LoadedRows(rows) == Cases(scenario, readings)
  {
    hide LoadedCase, Needed, Complete, Numbered, Converts, RowIdentity;
    if readings != [] {
      var n := |readings| - 1;
      ConvertsLast(scenario, readings, rows);
      LoadedIsText(scenario, readings[..n], rows[..n]);
      assert rows == rows[..n] + [rows[n]] && readings == readings[..n] + [readings[n]];
    } else {
      NothingConverted(scenario, readings, rows);
    }
  }

  lemma NothingConverted(scenario: Scenario, readings: seq<Reading>, rows: seq<TimingRow>)
    requires readings == [] && Converts(scenario, Numbered(readings), rows)
    ensures rows == []
  {
  }

  lemma LastRun(scenario: Scenario, readings: seq<Reading>)
    requires readings != [] && AllComplete(scenario, Numbered(readings))
    ensures var n := |readings| - 1;
            var last := Numbered(readings)[|Numbered(readings)| - 1];
            && Complete(scenario, last.0, last.1)
            && Needed(scenario, last.0, last.1).run == Occurrences(readings, readings[n].identity)
  {
    CompletePrefix(scenario, readings);
  }

  /** Each identity's cases are numbered 1, 2, 3, ... in the order of its lines, as many as it has lines. */
  lemma {:induction false} CasesAreNumbered(scenario: Scenario, readings: seq<Reading>, id: Identity)
    requires AllComplete(scenario, Numbered(readings))
    ensures |Select(Cases(scenario, readings), id)| == Occurrences(readings, id)
    ensures forall k :: 0 <= k < |Select(Cases(scenario, readings), id)| ==>
              Select(Cases(scenario, readings), id)[k].run == k + 1
  {
    hide Numbered, Needed, Complete, AllComplete, Select;
    if readings != [] {
      CompletePrefix(scenario, readings);
      LastRun(scenario, readings);
      var n := |readings| - 1;
      var last := Numbered(readings)[|Numbered(readings)| - 1];
      CasesAreNumbered(scenario, readings[..n], id);
      SelectAppend(Cases(scenario, readings[..n]), (readings[n].identity, Needed(scenario, last.0, last.1)), id);
    } else {
      NoCases(id);
    }
  }

  lemma NoCases(id: Identity)
    ensures Select<Identity, TimingCase>([], id) == []
  {
  }

  lemma {:induction false} OccursInCases(scenario: Scenario, readings: seq<Reading>, id: Identity)
    requires AllComplete(scenario, Numbered(readings))
    ensures |Cases(scenario, readings)| == |readings|
    ensures id in Keys(Cases(scenario, readings)) <==> Occurrences(readings, id) > 0
  {
    hide Numbered, Needed, Complete, AllComplete, Select, Keys;
    if readings != [] {
      CompletePrefix(scenario, readings);
      var n := |readings| - 1;
      var last := Numbered(readings)[|Numbered(readings)| - 1];
      OccursInCases(scenario, readings[..n], id);
      assert id in Keys(Cases(scenario, readings[..n])) <==> Occurrences(readings[..n], id) > 0;
      KeysAppend(Cases(scenario, readings[..n]), (readings[n].identity, Needed(scenario, last.0, last.1)));
    }
  }

  /** The whole pipeline is a stable group-by: exactly the identities of the text have an aggregation, each
      just one; its cases are the identity's lines in input order, numbered from 1; and there are as many
      cases as lines. */
  lemma PipelineIsStableGroupBy(scenario: Scenario, readings: seq<Reading>, rows: seq<TimingRow>, id: Identity)
    requires Converts(scenario, Numbered(readings), rows) && Workloads(readings)
    ensures Loadable(rows)
    ensures var groups := GroupBy(LoadedRows(rows));
            && DistinctKeys(groups) && Sizes(groups) == |readings|
            && (Find(groups, id) >= 0 <==> Occurrences(readings, id) > 0)
            && (Find(groups, id) >= 0 ==>
                  var items := groups[Find(groups, id)].items;
                  && items == Select(Cases(scenario, readings), id) && |items| == Occurrences(readings, id)
                  && forall k :: 0 <= k < |items| ==> items[k].run == k + 1)
  {
    hide LoadedCase, Needed, Complete, Occurrences, Keys, Select, Numbered;
    LoadedIsText(scenario, readings, rows);
    var cases := Cases(scenario, readings);
    CollectConserves(cases);
    CollectIsGroupBy(cases);
    OccursInCases(scenario, readings, id);
    FindInGroupBy(cases, id);
    CasesAreNumbered(scenario, readings, id);
  }

  // ---- what a loaded case holds of its line ------------------------------------------------

  /** If the case has the measurement, it is the line's value under a unit. */
  ghost predicate SameValue(item: TimingCase, m: Measurement, line: Reading, unit: string) {
    m in item.measurements ==> unit in line.measurements && item.measurements[m] == line.measurements[unit]
  }

  /** If the case has the measurement, it is the integer part of the line's value under a unit. */
  ghost predicate WholeValue(item: TimingCase, m: Measurement, line: Reading, unit: string) {
    m in item.measurements ==> unit in line.measurements && IntegerPart(line.measurements[unit], item.measurements[m])
  }

  /** The case a line gives: its run among those of its identity, and its values under the printed units. */
  ghost predicate CaseOfLine(item: TimingCase, line: Reading, run: nat) {
    && item.run == run && NsPerOp in item.measurements && Throttled in item.measurements
    && SameValue(item, NsPerOp, line, "ns/op") && WholeValue(item, Throttled, line, "throttled")
    && SameValue(item, MbPerSecond, line, "MB/s")
    && WholeValue(item, SerializedBytes, line, "serialized_bytes") && WholeValue(item, RawBytes, line, "raw_bytes")
    && WholeValue(item, CiphertextBytes, line, "ciphertext_bytes")
    && WholeValue(item, TotalCiphertextBytes, line, "total_ciphertext_bytes")
    && WholeValue(item, StoredKeyBytes, line, "stored_key_bytes")
  }

  lemma StoredIs(x: real)
    ensures IntegerPart(x, Trunc(x) as real)
  {
  }

  lemma NeededValue(scenario: Scenario, row: ResultRow, line: Reading, m: Measurement)
    requires Complete(scenario, row, line.measurements)
    ensures var item := Needed(scenario, row, line.measurements);
            if m == NsPerOp || m == MbPerSecond then SameValue(item, m, line, Unit(m)) else WholeValue(item, m, line, Unit(m))
  {
    hide Unit;
    var item := Needed(scenario, row, line.measurements);
    if m in item.measurements {
      assert item.measurements[m] == Stored(m, line.measurements[Unit(m)]);
      StoredIs(line.measurements[Unit(m)]);
    }
  }

  lemma NeededIsOfLine(scenario: Scenario, row: ResultRow, line: Reading)
    requires Complete(scenario, row, line.measurements)
    ensures Needed(scenario, row, line.measurements).run == row.run
    ensures CaseOfLine(Needed(scenario, row, line.measurements), line, row.run)
  {
    FixedAreNeeded(scenario, row, line);
    hide Needed, SameValue, WholeValue, Complete;
    NeededValue(scenario, row, line, NsPerOp);
    NeededValue(scenario, row, line, Throttled);
    NeededValue(scenario, row, line, MbPerSecond);
    NeededValue(scenario, row, line, SerializedBytes);
    NeededValue(scenario, row, line, RawBytes);
    NeededValue(scenario, row, line, CiphertextBytes);
    NeededValue(scenario, row, line, TotalCiphertextBytes);
    NeededValue(scenario, row, line, StoredKeyBytes);
  }

  lemma FixedAreNeeded(scenario: Scenario, row: ResultRow, line: Reading)
    requires Complete(scenario, row, line.measurements)
    ensures var item := Needed(scenario, row, line.measurements);
            item.run == row.run && NsPerOp in item.measurements && Throttled in item.measurements
  {
  }

  lemma {:induction false} CasesOfText(scenario: Scenario, readings: seq<Reading>, id: Identity)
    requires AllComplete(scenario, Numbered(readings))
    ensures |LinesOf(readings, id)| == Occurrences(readings, id) == |Select(Cases(scenario, readings), id)|
    ensures forall k :: 0 <= k < |LinesOf(readings, id)| ==>
              CaseOfLine(Select(Cases(scenario, readings), id)[k], LinesOf(readings, id)[k], k + 1)
  {
    hide Numbered, Needed, Complete, AllComplete, Select, CaseOfLine, Occurrences;
    if readings == [] {
      NoCases(id);
      assert Occurrences(readings, id) == 0 by { NoLines(id); }
    } else {
      CompletePrefix(scenario, readings);
      LastRun(scenario, readings);
      var n := |readings| - 1;
      var last := Numbered(readings)[|Numbered(readings)| - 1];
      CasesOfText(scenario, readings[..n], id);
      LastMeasured(readings);
      NeededIsOfLine(scenario, last.0, readings[n]);
      LastOccurs(readings, id);
      SelectAppend(Cases(scenario, readings[..n]), (readings[n].identity, Needed(scenario, last.0, last.1)), id);
    }
  }

  lemma NoLines(id: Identity)
    ensures Occurrences([], id) == 0
  {
  }

  lemma LastOccurs(readings: seq<Reading>, id: Identity)
    requires readings != []
    ensures var n := |readings| - 1;
            Occurrences(readings, id) == Occurrences(readings[..n], id) + if readings[n].identity == id then 1 else 0
  {
  }

  lemma LastMeasured(readings: seq<Reading>)
    requires readings != []
    ensures |Numbered(readings)| > 0
    ensures Numbered(readings)[|Numbered(readings)| - 1].1 == readings[|readings| - 1].measurements
  {
  }

  /** What the loaded list holds of a timing text: an aggregation for exactly the identities of the text, with its
      lines as cases in their order, numbered from 1, each with its line's values. */
  lemma LoadedIsTimingText(scenario: Scenario, readings: seq<Reading>, rows: seq<TimingRow>, id: Identity)
    requires Converts(scenario, Numbered(readings), rows) && Workloads(readings)
    ensures Loadable(rows)
    ensures var own, groups := LinesOf(readings, id), GroupBy(LoadedRows(rows));
            var i := Find(groups, id);
            && (i >= 0 <==> own != [])
            && (i >= 0 ==> |groups[i].items| == |own|
                           && forall k :: 0 <= k < |own| ==> CaseOfLine(groups[i].items[k], own[k], k + 1))
  {
    hide LoadedCase, Needed, Complete, Occurrences, Keys, Select, Numbered, CaseOfLine, GroupBy, LinesOf, Cases;
    LoadedIsText(scenario, readings, rows);
    PipelineIsStableGroupBy(scenario, readings, rows, id);
    CasesOfText(scenario, readings, id);
  }
}
