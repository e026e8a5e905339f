/** Converting and loading memory results: one peak per run, with the runtime baseline kept apart. */
module MemoryResults {
  import opened Wrappers
  import opened Grouping
  import opened BenchmarkText
  import opened BenchmarkResults
  import opened TimingResults
  import opened RunSummary

  const PEAK_RSS := "peak_rss_bytes"

  datatype MemoryRow = MemoryRow(row: ResultRow, peak: int)

  datatype MemoryCase = MemoryCase(run: nat, peak: real)

  ghost predicate AllPeaks(numbered: seq<(ResultRow, Measurements)>) {
    forall i :: 0 <= i < |numbered| ==> PEAK_RSS in numbered[i].1
  }

  ghost predicate ConvertsPeaks(numbered: seq<(ResultRow, Measurements)>, rows: seq<MemoryRow>) {
    && |rows| == |numbered|
    && forall i :: 0 <= i < |rows| ==>
         PEAK_RSS in numbered[i].1 && rows[i] == MemoryRow(numbered[i].0, Trunc(numbered[i].1[PEAK_RSS]))
  }

  /** Text to rows; baselines are kept. */
  method ConvertMemoryResults(lines: seq<Line>, scenario: Scenario) returns (r: Result<seq<MemoryRow>, Failure>)
    ensures CasePrefix(scenario).None? ==> r == Err(ValueError)
    ensures CasePrefix(scenario).Some? ==>
              var yielded := Readings(scenario, CasePrefix(scenario).value, lines);
              && (r.Ok? <==> yielded.failure.None? && AllPeaks(Numbered(yielded.readings)))
              && (r.Ok? ==> ConvertsPeaks(Numbered(yielded.readings), r.value))
              && (r.Err? ==> r.error == if AllPeaks(Numbered(yielded.readings)) then yielded.failure.value else KeyError)
  {
    hide Readings, Numbered;
    var numbered, failure := ReadBenchmarkResults(lines, scenario);
    var rows: seq<MemoryRow> := [];
    for n := 0 to |numbered|
      invariant ConvertsPeaks(numbered[..n], rows)
    {
      if PEAK_RSS !in numbered[n].1 {
        return Err(KeyError);
      }
      rows := rows + [MemoryRow(numbered[n].0, Trunc(numbered[n].1[PEAK_RSS]))];
    }
    assert numbered[..|numbered|] == numbered;
    if failure.Some? {
      return Err(failure.value);
    }
    return Ok(rows);
  }

  function CaseOf(row: MemoryRow): MemoryCase {
    MemoryCase(row.row.run, row.peak as real)
  }

  /** The baseline cases, in file order. */
  function BaselineCases(rows: seq<MemoryRow>): seq<MemoryCase> {
    if rows == [] then []
    else
      var last := rows[|rows| - 1];
      var before := BaselineCases(rows[..|rows| - 1]);
      if last.row.rowType == "baseline" then before + [CaseOf(last)] else before
  }

  predicate LoadableRow(row: MemoryRow) {
    row.row.rowType == "baseline" || row.row.parameterValue.Some?
  }

  /** The workload cases with their identities. */
  function WorkloadCases(rows: seq<MemoryRow>): seq<(Identity, MemoryCase)>
    requires forall i :: 0 <= i < |rows| ==> LoadableRow(rows[i])
  {
    if rows == [] then []
    else
      var last := rows[|rows| - 1];
      assert LoadableRow(last);
      var before := WorkloadCases(rows[..|rows| - 1]);
      if last.row.rowType == "baseline" then before else before + [(RowIdentity(last.row), CaseOf(last))]
  }

  /** Loads the rows: baselines into a list of their own, workloads grouped by identity. */
  method LoadMemoryResults(rows: seq<MemoryRow>)
    returns (baselines: seq<MemoryCase>, list: AggregationList<MemoryCase>, failure: Option<Failure>)
    ensures failure == if forall i :: 0 <= i < |rows| ==> LoadableRow(rows[i]) then None else Some(ValueError)
    ensures failure == None ==> baselines == BaselineCases(rows) && list.Shows(GroupBy(WorkloadCases(rows)))
  {
    baselines := [];
    list := new AggregationList<MemoryCase>();
    hide AggregationList.Shows, Insert, Collect, RowIdentity;
    assert Collect(WorkloadCases(rows[..0])) == [] by { NothingCollected(rows[..0]); }
    for n := 0 to |rows|
      invariant forall i :: 0 <= i < n ==> LoadableRow(rows[i])
      invariant fresh(list) && forall i :: 0 <= i < |list.aggregations| ==> fresh(list.aggregations[i])
      invariant baselines == BaselineCases(rows[..n]) && list.Shows(Collect(WorkloadCases(rows[..n])))
    {
      assert rows[..n + 1][..n] == rows[..n];
      var row := rows[n].row;
      var item := CaseOf(rows[n]);
      if row.rowType == "baseline" {
        baselines := baselines + [item];
      } else {
        if row.parameterValue.None? {
          return baselines, list, Some(ValueError);
        }
        list.Add(RowIdentity(row), item, Collect(WorkloadCases(rows[..n])));
        CollectNext(WorkloadCases(rows[..n]), RowIdentity(row), item);
      }
    }
    assert rows[..|rows|] == rows;
    CollectIsGroupBy(WorkloadCases(rows));
    failure := None;
  }

  lemma NothingCollected(rows: seq<MemoryRow>)
    requires rows == []
    ensures Collect(WorkloadCases(rows)) == []
  {
  }

  // ---- from the text -----------------------------------------------------------------------

  lemma {:induction false} PeaksLast(readings: seq<Reading>, rows: seq<MemoryRow>)
    requires readings != [] && ConvertsPeaks(Numbered(readings), rows)
    ensures |rows| == |readings| && ConvertsPeaks(Numbered(readings[..|readings| - 1]), rows[..|rows| - 1])
    ensures var n := |readings| - 1;
            && (rows[n].row.rowType == "baseline" <==> readings[n].baseline)
            && LoadableRow(rows[n])
            && (!readings[n].baseline ==> RowIdentity(rows[n].row) == readings[n].identity)
  {
    LabelledShape(readings);
    LabelledShape(readings[..|readings| - 1]);
    var before, all := Numbered(readings[..|readings| - 1]), Numbered(readings);
    assert forall i :: 0 <= i < |before| ==> before[i] == all[i];
  }

  /** Converted rows always load. */
  lemma {:induction false} PeaksLoad(readings: seq<Reading>, rows: seq<MemoryRow>)
    requires ConvertsPeaks(Numbered(readings), rows)
    ensures |rows| == |readings| && forall k :: 0 <= k < |rows| ==> LoadableRow(rows[k])
  {
    LabelledShape(readings);
    forall k | 0 <= k < |rows|
      ensures LoadableRow(rows[k])
    {
      assert Numbered(readings)[k].0 == RowOf(readings[k], Numbered(readings)[k].0.run);
    }
  }

  /** Every workload line has a case under its identity and every baseline line has one in the baseline list. */
  lemma {:induction false} LoadedPeaks(readings: seq<Reading>, rows: seq<MemoryRow>, i: nat)
    requires ConvertsPeaks(Numbered(readings), rows) && i < |readings|
    requires forall k :: 0 <= k < |rows| ==> LoadableRow(rows[k])
    ensures readings[i].baseline ==> BaselineCases(rows) != []
    ensures !readings[i].baseline ==> readings[i].identity in Keys(WorkloadCases(rows))
    decreases |readings|
  {
    hide Numbered, ConvertsPeaks, RowIdentity, Keys, LoadableRow;
    var n := |readings| - 1;
    PeaksLast(readings, rows);
    if i < n {
      LoadedPeaks(readings[..n], rows[..n], i);
    }
    if !readings[n].baseline {
      KeysAppend(WorkloadCases(rows[..n]), (RowIdentity(rows[n].row), CaseOf(rows[n])));
    }
  }

  lemma PeakIsIntegerPart(row: MemoryRow, x: real)
    requires row.peak == Trunc(x)
    ensures IntegerPart(x, CaseOf(row).peak) && CaseOf(row).run == row.row.run
  {
  }

  /** The case a line gives: its run among those of its identity, and the integer part of its peak. */
  ghost predicate CaseOfLine(item: MemoryCase, line: Reading, run: nat) {
    && item.run == run && "peak_rss_bytes" in line.measurements
    && IntegerPart(line.measurements["peak_rss_bytes"], item.peak)
  }

  lemma {:induction false} LastRow(readings: seq<Reading>, rows: seq<MemoryRow>)
    requires readings != [] && ConvertsPeaks(Numbered(readings), rows)
    ensures |rows| == |readings|
    ensures CaseOfLine(CaseOf(rows[|rows| - 1]), readings[|readings| - 1],
                       Occurrences(readings, readings[|readings| - 1].identity))
  {
    LabelledShape(readings);
    var n := |readings| - 1;
    PeakIsIntegerPart(rows[n], readings[n].measurements[PEAK_RSS]);
    hide Occurrences, IntegerPart, Trunc, CaseOf;
  }

  /** Every workload identity's loaded cases are its lines: as many, in their order, numbered from 1, each with the
      integer part of its line's peak; a baseline's lines are not among them. */
  lemma {:induction false} PeaksOfText(readings: seq<Reading>, rows: seq<MemoryRow>, id: Identity)
    requires Consistent(readings) && ConvertsPeaks(Numbered(readings), rows)
    ensures forall k :: 0 <= k < |rows| ==> LoadableRow(rows[k])
    ensures |LinesOf(readings, id)| == Occurrences(readings, id)
    ensures var cases, lines := Select(WorkloadCases(rows), id), LinesOf(readings, id);
            if IsBaselineIdentity(id) then cases == []
            else |cases| == |lines| && forall k :: 0 <= k < |cases| ==> CaseOfLine(cases[k], lines[k], k + 1)
  {
    PeaksLoad(readings, rows);
    hide ConvertsPeaks, Numbered, RowIdentity, CaseOf, CaseOfLine, IsBaselineIdentity, LoadableRow;
    if readings == [] {
      NoPeaks(rows, id);
    } else {
      var n := |readings| - 1;
      PeaksLast(readings, rows);
      PeaksOfText(readings[..n], rows[..n], id);
      LastRow(readings, rows);
      if !readings[n].baseline {
        SelectAppend(WorkloadCases(rows[..n]), (RowIdentity(rows[n].row), CaseOf(rows[n])), id);
      }
    }
  }

  lemma NoPeaks(rows: seq<MemoryRow>, id: Identity)
    requires rows == []
    ensures Select(WorkloadCases(rows), id) == []
  {
  }

  /** The baseline lines, in input order. */
  function BaselineLines(readings: seq<Reading>): seq<Reading> {
    if readings == [] then []
    else
      var last := readings[|readings| - 1];
      BaselineLines(readings[..|readings| - 1]) + if last.baseline then [last] else []
  }

  lemma {:induction false} BaselinesOccur(readings: seq<Reading>, id: Identity)
    requires Consistent(readings) && IsBaselineIdentity(id)
    ensures Occurrences(BaselineLines(readings), id) == Occurrences(readings, id)
  {
    if readings != [] {
      var n := |readings| - 1;
      BaselinesOccur(readings[..n], id);
      var before := BaselineLines(readings[..n]);
      assert (before + [readings[n]])[..|before|] == before;
      assert before + [] == before;
    }
  }

  /** The baseline list holds the baseline lines: as many, in their order, each with the integer part of its peak and
      numbered among the baseline lines printed like it. */
  lemma {:induction false} BaselinePeaksOfText(readings: seq<Reading>, rows: seq<MemoryRow>)
    requires Consistent(readings) && ConvertsPeaks(Numbered(readings), rows)
    ensures var cases, lines := BaselineCases(rows), BaselineLines(readings);
            && |cases| == |lines|
            && forall k :: 0 <= k < |cases| ==>
                 CaseOfLine(cases[k], lines[k], Occurrences(lines[..k + 1], lines[k].identity))
  {
    hide ConvertsPeaks, Numbered, RowIdentity, CaseOf, CaseOfLine, IsBaselineIdentity, Occurrences;
    if readings == [] {
      NothingRead(readings, rows);
    } else {
      var n := |readings| - 1;
      PeaksLast(readings, rows);
      BaselinePeaksOfText(readings[..n], rows[..n]);
      LastRow(readings, rows);
      var before, lines := BaselineLines(readings[..n]), BaselineLines(readings);
      if readings[n].baseline {
        BaselinesOccur(readings, readings[n].identity);
        assert lines[..|lines|] == lines;
        forall k | 0 <= k < |before|
          ensures CaseOfLine(BaselineCases(rows)[k], lines[k], Occurrences(lines[..k + 1], lines[k].identity))
        {
          assert lines[..k + 1] == before[..k + 1];
        }
      } else {
        assert lines == before;
      }
    }
  }

  lemma NothingRead(readings: seq<Reading>, rows: seq<MemoryRow>)
    requires readings == [] && ConvertsPeaks(Numbered(readings), rows)
    ensures rows == []
  {
  }

  /** What the loaded lists hold of a memory text: an aggregation for exactly the workload identities of the text, with
      its lines as cases, and the baseline lines in the list of their own. */
  lemma LoadedIsMemoryText(scenario: Scenario, prefix: string, lines: seq<Line>, rows: seq<MemoryRow>, id: Identity)
    requires ConvertsPeaks(Numbered(Readings(scenario, prefix, lines).readings), rows)
    ensures forall k :: 0 <= k < |rows| ==> LoadableRow(rows[k])
    ensures var own := LinesOf(Readings(scenario, prefix, lines).readings, id);
            var groups := GroupBy(WorkloadCases(rows));
            var i := Find(groups, id);
            && (i >= 0 <==> own != [] && !IsBaselineIdentity(id))
            && (i >= 0 ==> |groups[i].items| == |own|
                           && forall k :: 0 <= k < |own| ==> CaseOfLine(groups[i].items[k], own[k], k + 1))
    ensures var baselines := BaselineLines(Readings(scenario, prefix, lines).readings);
            && |BaselineCases(rows)| == |baselines|
            && forall k :: 0 <= k < |baselines| ==>
                 CaseOfLine(BaselineCases(rows)[k], baselines[k], Occurrences(baselines[..k + 1], baselines[k].identity))
  {
    var readings := Readings(scenario, prefix, lines).readings;
    ReadingsAreConsistent(scenario, prefix, lines);
    hide Readings, ConvertsPeaks, Numbered, CaseOfLine, WorkloadCases, BaselineCases, LinesOf, BaselineLines, LoadableRow,
         GroupBy, IsBaselineIdentity;
    PeaksOfText(readings, rows, id);
    BaselinePeaksOfText(readings, rows);
    FoundItems(WorkloadCases(rows), id);
  }

  lemma FoundItems(rows: seq<(Identity, MemoryCase)>, id: Identity)
    ensures var i := Find(GroupBy(rows), id);
            (i >= 0 <==> Select(rows, id) != []) && (i >= 0 ==> GroupBy(rows)[i].items == Select(rows, id))
  {
    FindInGroupBy(rows, id);
    if id in Keys(rows) {
      SelectSome(rows, id);
    } else {
      SelectNone(rows, id);
    }
  }
}
