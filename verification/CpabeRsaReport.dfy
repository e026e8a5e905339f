/** The lookups of the CP-ABE/RSA report against what the orchestrator scheduled. */
module CpabeRsaReport {
  import opened Wrappers
  import opened Grouping
  import opened BenchmarkText
  import opened BenchmarkResults
  import opened TimingResults
  import opened MemoryResults
  import opened EnergySummary
  import opened CpabeRsaSchedule

  // ---- what the report asks for ------------------------------------------------------------

  /** The report's own table of parameter names. */
  const PARAMETER_BY_ALGORITHM: map<string, string> :=
    map[CPABE_ATTRIBUTES := "attribute_count", RSA_SUBSCRIBERS := "subscriber_count", RSA_KEY_BITS := "rsa_key_bits"]

  datatype ReportCase = ReportCase(algorithm: string, operation: string)

  const CASE_ORDER: seq<ReportCase> :=
    [ReportCase(CPABE_ATTRIBUTES, "Encrypt"), ReportCase(CPABE_ATTRIBUTES, "Decrypt"),
     ReportCase(RSA_SUBSCRIBERS, "Encrypt"), ReportCase(RSA_KEY_BITS, "Encrypt"), ReportCase(RSA_KEY_BITS, "Decrypt")]

  function TimingValues(p: Parameters, algorithm: string): seq<nat> {
    if algorithm == CPABE_ATTRIBUTES then p.attributeCounts
    else if algorithm == RSA_SUBSCRIBERS then p.subscriberCounts
    else p.rsaKeyBits
  }

  function EnergyMemoryValues(p: Parameters, c: ReportCase): seq<nat> {
    if c.algorithm == RSA_KEY_BITS then if c.operation == "Decrypt" then [p.fixedRsaKeyBits] else []
    else TimingValues(p, c.algorithm)
  }

  function Demanded(c: ReportCase, value: nat): Identity
    requires c.algorithm in PARAMETER_BY_ALGORITHM
  {
    Identity(c.algorithm, c.operation, PARAMETER_BY_ALGORITHM[c.algorithm], value)
  }

  /** Measurements the report averages besides latency and throttling. */
  function ExtraMeasurements(c: ReportCase): set<Measurement> {
    (if c.operation == "Encrypt" then {CiphertextBytes} else {})
    + (if c == ReportCase(RSA_SUBSCRIBERS, "Encrypt") then {TotalCiphertextBytes} else {})
    + (if c == ReportCase(CPABE_ATTRIBUTES, "Decrypt") then {StoredKeyBytes} else {})
  }

  // ---- when a lookup and its statistics succeed --------------------------------------------

  ghost predicate TimingFound(groups: seq<Group<Identity, TimingCase>>, c: ReportCase, id: Identity) {
    var i := Find(groups, id);
    && i >= 0 && groups[i].items != []
    && forall k :: 0 <= k < |groups[i].items| ==>
         {NsPerOp, Throttled} + ExtraMeasurements(c) <= groups[i].items[k].measurements.Keys
  }

  ghost predicate EnergyFound(groups: EnergySummary.Grouped, id: Identity) {
    var i := Find(groups, id);
    && i >= 0 && groups[i].items != []
    && forall k :: 0 <= k < |groups[i].items| ==> groups[i].items[k].items != []
  }

  ghost predicate MemoryFound(groups: seq<Group<Identity, MemoryCase>>, id: Identity) {
    var i := Find(groups, id);
    i >= 0 && groups[i].items != []
  }

  ghost predicate TimingComplete(p: Parameters, timing: seq<Group<Identity, TimingCase>>) {
    forall c, v | c in CASE_ORDER && v in TimingValues(p, c.algorithm) ::
      c.algorithm in PARAMETER_BY_ALGORITHM && TimingFound(timing, c, Demanded(c, v))
  }

  /** Energy needs the baselines and its own samples. */
  ghost predicate EnergyComplete(p: Parameters, energy: EnergySummary.Grouped, baselines: seq<Group<nat, EnergySample>>) {
    && baselines != [] && (forall k :: 0 <= k < |baselines| ==> baselines[k].items != [])
    && forall c, v | c in CASE_ORDER && v in EnergyMemoryValues(p, c) ::
         c.algorithm in PARAMETER_BY_ALGORITHM && EnergyFound(energy, Demanded(c, v))
  }

  ghost predicate MemoryComplete(p: Parameters, memory: seq<Group<Identity, MemoryCase>>, baselines: seq<MemoryCase>) {
    && baselines != []
    && forall c, v | c in CASE_ORDER && v in EnergyMemoryValues(p, c) ::
         c.algorithm in PARAMETER_BY_ALGORITHM && MemoryFound(memory, Demanded(c, v))
  }

  // ---- timing ------------------------------------------------------------------------------

  lemma CaseNames(c: ReportCase)
    requires c in CASE_ORDER
    ensures c.algorithm in PARAMETER_BY_ALGORITHM
    ensures PARAMETER_BY_ALGORITHM[c.algorithm] == ParameterOf(CpabeRsa, c.algorithm)
    ensures c.operation == "Encrypt" || c.operation == "Decrypt"
    ensures c.algorithm == CPABE_ATTRIBUTES || c.algorithm == RSA_SUBSCRIBERS || c.algorithm == RSA_KEY_BITS
    ensures c.algorithm == RSA_SUBSCRIBERS ==> c.operation == "Encrypt"
  {
  }

  lemma TimingScheduled(p: Parameters, name: CaseName)
    ensures name in TimingSchedule(p) <==>
              ReportCase(name.algorithm, name.operation) in CASE_ORDER && name.parameterValue in TimingValues(p, name.algorithm)
  {
    CasesOfMembers(CPABE_ATTRIBUTES, ["Encrypt", "Decrypt"], p.attributeCounts, name);
    CasesOfMembers(RSA_SUBSCRIBERS, ["Encrypt"], p.subscriberCounts, name);
    CasesOfMembers(RSA_KEY_BITS, ["Encrypt", "Decrypt"], p.rsaKeyBits, name);
    var both := ["Encrypt", "Decrypt"];
    assert both[0] == "Encrypt" && both[1] == "Decrypt" && ["Encrypt"][0] == "Encrypt";
    InCaseOrder(ReportCase(name.algorithm, name.operation));
  }

  lemma InCaseOrder(c: ReportCase)
    ensures c in CASE_ORDER <==>
              || ((c.algorithm == CPABE_ATTRIBUTES || c.algorithm == RSA_KEY_BITS) && c.operation in {"Encrypt", "Decrypt"})
              || (c.algorithm == RSA_SUBSCRIBERS && c.operation == "Encrypt")
  {
    assert CASE_ORDER[0] == ReportCase(CPABE_ATTRIBUTES, "Encrypt");
    assert CASE_ORDER[1] == ReportCase(CPABE_ATTRIBUTES, "Decrypt");
    assert CASE_ORDER[2] == ReportCase(RSA_SUBSCRIBERS, "Encrypt");
    assert CASE_ORDER[3] == ReportCase(RSA_KEY_BITS, "Encrypt");
    assert CASE_ORDER[4] == ReportCase(RSA_KEY_BITS, "Decrypt");
  }

  /** Every loaded case has exactly the measurements its identity reports. */
  lemma {:induction false} CasesReport(scenario: Scenario, readings: seq<Reading>, id: Identity, k: nat)
    requires AllComplete(scenario, Numbered(readings)) && Workloads(readings)
    requires k < |Select(Cases(scenario, readings), id)|
    ensures forall m :: m in Select(Cases(scenario, readings), id)[k].measurements <==>
                        Reports(scenario, id.algorithm, id.operation, m)
  {
    hide Reports, Complete, AllComplete;
    if readings != [] {
      CompletePrefix(scenario, readings);
      LabelledShape(readings);
      var n := |readings| - 1;
      var last := Numbered(readings)[|Numbered(readings)| - 1];
      SelectAppend(Cases(scenario, readings[..n]), (readings[n].identity, Needed(scenario, last.0, last.1)), id);
      if k < |Select(Cases(scenario, readings[..n]), id)| {
        CasesReport(scenario, readings[..n], id, k);
      } else {
        assert last.0 == RowOf(readings[n], last.0.run);
      }
    }
  }

  /** What the reader makes of a printed timing file: complete workload rows, one per planned case. */
  lemma {:induction false} PlannedRows(p: Parameters, readings: seq<Reading>, plan: seq<CaseName>)
    requires plan == Plan(TimingSchedule(p), p.runs) && |readings| == |plan|
    requires forall i :: 0 <= i < |plan| ==> ReadingOf(TimingFile, readings[i], plan[i])
    ensures Workloads(readings) && AllComplete(CpabeRsa, Numbered(readings))
  {
    hide Reports, Unit;
    LabelledShape(readings);
    forall i | 0 <= i < |plan|
      ensures !readings[i].baseline && Complete(CpabeRsa, Numbered(readings)[i].0, Numbered(readings)[i].1)
    {
      PlannedCase(p, plan[i]);
      assert Numbered(readings)[i].0 == RowOf(readings[i], Numbered(readings)[i].0.run);
    }
  }

  lemma CleanOperation(operation: string)
    requires operation in {"MemoryBaseline", "MemoryEncrypt", "MemoryDecrypt", "Encrypt", "Decrypt"}
    ensures '/' !in operation
  {
  }

  lemma CleanAlgorithm(algorithm: string)
    requires algorithm in {"Runtime", CPABE_ATTRIBUTES, RSA_SUBSCRIBERS, RSA_KEY_BITS}
    ensures '/' !in algorithm
  {
  }

  lemma PlannedCase(p: Parameters, name: CaseName)
    requires name in Plan(TimingSchedule(p), p.runs)
    ensures ReportCase(name.algorithm, name.operation) in CASE_ORDER && name.parameterValue in TimingValues(p, name.algorithm)
    ensures CleanName(name) && !IsBaseline(name) && OperationOf(name.operation) == name.operation && p.runs > 0
  {
    PlanMembers(TimingSchedule(p), p.runs, name);
    TimingScheduled(p, name);
    InCaseOrder(ReportCase(name.algorithm, name.operation));
    hide TimingSchedule, Plan, TimingValues;
    CleanAlgorithm(name.algorithm);
    CleanOperation(name.operation);
  }

  lemma {:induction false} OccursOnce(readings: seq<Reading>, i: nat)
    requires i < |readings|
    ensures Occurrences(readings, readings[i].identity) > 0
  {
    var n := |readings| - 1;
    if i < n {
      OccursOnce(readings[..n], i);
    }
  }

  lemma {:induction false} TimingFoundFor(p: Parameters, readings: seq<Reading>, plan: seq<CaseName>,
                                          rows: seq<TimingRow>,
                                          c: ReportCase, v: nat, i: nat)
    requires plan == Plan(TimingSchedule(p), p.runs) && |readings| == |plan|
    requires forall i :: 0 <= i < |plan| ==> ReadingOf(TimingFile, readings[i], plan[i])
    requires Converts(CpabeRsa, Numbered(readings), rows) && Loadable(rows)
    requires i < |plan| && plan[i] == CaseName(c.operation, c.algorithm, v)
    ensures c.algorithm in PARAMETER_BY_ALGORITHM && TimingFound(GroupBy(LoadedRows(rows)), c, Demanded(c, v))
  {
    hide Reports, Converts, Carries, LoadedRows, GroupBy, Select, Cases, Numbered, TimingValues, Occurrences;
    PlannedRows(p, readings, plan);
    PlannedCase(p, plan[i]);
    CaseNames(c);
    var id := Demanded(c, v);
    assert ReadingOf(TimingFile, readings[i], plan[i]);
    assert readings[i].identity == id;
    OccursOnce(readings, i);
    PipelineIsStableGroupBy(CpabeRsa, readings, rows, id);
    var groups := GroupBy(LoadedRows(rows));
    var items := groups[Find(groups, id)].items;
    forall k | 0 <= k < |items|
      ensures {NsPerOp, Throttled} + ExtraMeasurements(c) <= items[k].measurements.Keys
    {
      CasesReport(CpabeRsa, readings, id, k);
      ExtrasReported(c);
    }
  }

  lemma ExtrasReported(c: ReportCase)
    ensures forall m <- {NsPerOp, Throttled} + ExtraMeasurements(c) :: Reports(CpabeRsa, c.algorithm, c.operation, m)
  {
  }

  /** Every timing aggregation the report asks for is there, with at least one case and with every
      measurement the report averages, whatever the benchmarks printed between their result lines. */
  lemma TimingLookupsSucceed(p: Parameters, lines: seq<Line>, rows: seq<TimingRow>)
    requires p.runs > 0 && Printed(TimingFile, lines, Plan(TimingSchedule(p), p.runs))
    ensures var yielded := Readings(CpabeRsa, CasePrefix(CpabeRsa).value, lines);
            && yielded.failure == None && AllComplete(CpabeRsa, Numbered(yielded.readings))
            && (Converts(CpabeRsa, Numbered(yielded.readings), rows) ==>
                  Loadable(rows) && TimingComplete(p, GroupBy(LoadedRows(rows))))
  {
    hide Reports, Carries, LoadedRows, GroupBy, Numbered, TimingFound, Converts, ReadingOf, CleanName, Plan, TimingSchedule;
    var plan := Plan(TimingSchedule(p), p.runs);
    forall i | 0 <= i < |plan|
      ensures CleanName(plan[i])
    {
      PlannedCase(p, plan[i]);
    }
    PrintedIsRead(TimingFile, lines, plan);
    var readings := Readings(CpabeRsa, CasePrefix(CpabeRsa).value, lines).readings;
    PlannedRows(p, readings, plan);
    if Converts(CpabeRsa, Numbered(readings), rows) {
      LoadedIsText(CpabeRsa, readings, rows);
      forall c, v | c in CASE_ORDER && v in TimingValues(p, c.algorithm)
        ensures c.algorithm in PARAMETER_BY_ALGORITHM && TimingFound(GroupBy(LoadedRows(rows)), c, Demanded(c, v))
      {
        var name := CaseName(c.operation, c.algorithm, v);
        TimingScheduled(p, name);
        PlanMembers(TimingSchedule(p), p.runs, name);
        var i :| 0 <= i < |plan| && plan[i] == name;
        TimingFoundFor(p, readings, plan, rows, c, v, i);
      }
    }
  }

  // ---- memory ------------------------------------------------------------------------------

  lemma MemoryScheduled(p: Parameters, c: ReportCase, v: nat)
    requires c in CASE_ORDER && v in EnergyMemoryValues(p, c)
    ensures CaseName("Memory" + c.operation, c.algorithm, v) in MemorySchedule(p)
    ensures OperationOf("Memory" + c.operation) == c.operation
  {
    InCaseOrder(c);
    var name := CaseName("Memory" + c.operation, c.algorithm, v);
    CasesOfMembers(CPABE_ATTRIBUTES, ["MemoryEncrypt", "MemoryDecrypt"], p.attributeCounts, name);
    CasesOfMembers(RSA_SUBSCRIBERS, ["MemoryEncrypt"], p.subscriberCounts, name);
    var both := ["MemoryEncrypt", "MemoryDecrypt"];
    assert both[0] == "MemoryEncrypt" && both[1] == "MemoryDecrypt" && ["MemoryEncrypt"][0] == "MemoryEncrypt";
    assert "Memory" + "Encrypt" == "MemoryEncrypt" && "Memory" + "Decrypt" == "MemoryDecrypt";
  }

  lemma MemoryNames(p: Parameters, name: CaseName)
    requires name in MemorySchedule(p)
    ensures CleanName(name)
  {
    CasesOfMembers(CPABE_ATTRIBUTES, ["MemoryEncrypt", "MemoryDecrypt"], p.attributeCounts, name);
    CasesOfMembers(RSA_SUBSCRIBERS, ["MemoryEncrypt"], p.subscriberCounts, name);
    CleanOperation(name.operation);
    CleanAlgorithm(name.algorithm);
  }

  lemma {:induction false} MemoryFoundFor(p: Parameters, readings: seq<Reading>, plan: seq<CaseName>,
                                          rows: seq<MemoryRow>,
                                          c: ReportCase, v: nat)
    requires p.runs > 0 && plan == Plan(MemorySchedule(p), p.runs) && |readings| == |plan|
    requires forall i :: 0 <= i < |plan| ==> ReadingOf(MemoryFile, readings[i], plan[i])
    requires ConvertsPeaks(Numbered(readings), rows) && forall k :: 0 <= k < |rows| ==> LoadableRow(rows[k])
    requires c in CASE_ORDER && v in EnergyMemoryValues(p, c)
    ensures c.algorithm in PARAMETER_BY_ALGORITHM && MemoryFound(GroupBy(WorkloadCases(rows)), Demanded(c, v))
  {
    hide ConvertsPeaks, Carries, GroupBy, Numbered, WorkloadCases, Plan, MemorySchedule, EnergyMemoryValues, LoadableRow, Keys;
    CaseNames(c);
    var name := CaseName("Memory" + c.operation, c.algorithm, v);
    MemoryScheduled(p, c, v);
    PlanMembers(MemorySchedule(p), p.runs, name);
    var i :| 0 <= i < |plan| && plan[i] == name;
    assert ReadingOf(MemoryFile, readings[i], plan[i]);
    LoadedPeaks(readings, rows, i);
    var id := Demanded(c, v);
    assert readings[i].identity == id && !readings[i].baseline;
    FindInGroupBy(WorkloadCases(rows), id);
    FoundIsNotEmpty(WorkloadCases(rows), id);
  }

  lemma FoundIsNotEmpty(rows: seq<(Identity, MemoryCase)>, id: Identity)
    requires id in Keys(rows)
    ensures Find(GroupBy(rows), id) >= 0 && GroupBy(rows)[Find(GroupBy(rows), id)].items != []
  {
    FindInGroupBy(rows, id);
    SelectSome(rows, id);
  }

  /** Every memory aggregation the report asks for is there, and so are the baselines. */
  lemma MemoryLookupsSucceed(p: Parameters, lines: seq<Line>, rows: seq<MemoryRow>)
    requires p.runs > 0 && Printed(MemoryFile, lines, Plan(MemorySchedule(p), p.runs))
    ensures var yielded := Readings(CpabeRsa, CasePrefix(CpabeRsa).value, lines);
            && yielded.failure == None && AllPeaks(Numbered(yielded.readings))
            && (ConvertsPeaks(Numbered(yielded.readings), rows) ==>
                  && (forall k :: 0 <= k < |rows| ==> LoadableRow(rows[k]))
                  && MemoryComplete(p, GroupBy(WorkloadCases(rows)), BaselineCases(rows)))
  {
    hide ConvertsPeaks, GroupBy, Numbered, WorkloadCases, MemoryFound, CleanName, EnergyMemoryValues, LoadableRow, Demanded;
    var plan := Plan(MemorySchedule(p), p.runs);
    forall i | 0 <= i < |plan|
      ensures CleanName(plan[i])
    {
      PlanMembers(MemorySchedule(p), p.runs, plan[i]);
      MemoryNames(p, plan[i]);
    }
    PrintedIsRead(MemoryFile, lines, plan);
    var readings := Readings(CpabeRsa, CasePrefix(CpabeRsa).value, lines).readings;
    PeaksMeasured(readings, plan);
    if ConvertsPeaks(Numbered(readings), rows) {
      PeaksLoad(readings, rows);
      BaselineFound(p, readings, plan, rows);
      forall c, v | c in CASE_ORDER && v in EnergyMemoryValues(p, c)
        ensures c.algorithm in PARAMETER_BY_ALGORITHM && MemoryFound(GroupBy(WorkloadCases(rows)), Demanded(c, v))
      {
        MemoryFoundFor(p, readings, plan, rows, c, v);
      }
    }
  }

  lemma {:induction false} PeaksMeasured(readings: seq<Reading>, plan: seq<CaseName>)
    requires |readings| == |plan| && forall i :: 0 <= i < |plan| ==> ReadingOf(MemoryFile, readings[i], plan[i])
    ensures AllPeaks(Numbered(readings))
  {
    LabelledShape(readings);
    forall i | 0 <= i < |readings|
      ensures PEAK_RSS in Numbered(readings)[i].1
    {
      assert ReadingOf(MemoryFile, readings[i], plan[i]);
    }
  }

  lemma {:induction false} BaselineFound(p: Parameters, readings: seq<Reading>, plan: seq<CaseName>,
                                         rows: seq<MemoryRow>)
    requires p.runs > 0 && plan == Plan(MemorySchedule(p), p.runs) && |readings| == |plan|
    requires forall i :: 0 <= i < |plan| ==> ReadingOf(MemoryFile, readings[i], plan[i])
    requires ConvertsPeaks(Numbered(readings), rows) && forall k :: 0 <= k < |rows| ==> LoadableRow(rows[k])
    ensures BaselineCases(rows) != []
  {
    hide ConvertsPeaks, Carries, GroupBy, Numbered, WorkloadCases, Plan, LoadableRow;
    var name := CaseName("MemoryBaseline", "Runtime", 0);
    assert MemorySchedule(p)[0] == name;
    PlanMembers(MemorySchedule(p), p.runs, name);
    var i :| 0 <= i < |plan| && plan[i] == name;
    assert ReadingOf(MemoryFile, readings[i], plan[i]);
    LoadedPeaks(readings, rows, i);
  }

  // ---- energy lookups ----------------------------------------------------------------------

  /** No key is lost. */
  ghost predicate KeysGrow(rows: seq<CsvRow>, longer: seq<CsvRow>) {
    && (forall id :: id in Keys(WorkloadRows(rows)) ==> id in Keys(WorkloadRows(longer)))
    && (forall run :: run in Keys(BaselineRows(rows)) ==> run in Keys(BaselineRows(longer)))
  }

  ghost predicate HasKey(rows: seq<CsvRow>, w: Window) {
    match w
    case WorkloadWindow(id, _, _, _) => id in Keys(WorkloadRows(rows))
    case BaselineWindow(run, _) => run in Keys(BaselineRows(rows))
  }

  lemma {:induction false} WorkloadAdded(rows: seq<CsvRow>, w: Window, n: nat)
    requires n <= |w.samples|
    ensures KeysGrow(rows, rows + WindowRows(w, n))
    ensures n > 0 ==> HasKey(rows + WindowRows(w, n), w)
  {
    hide KeysGrow, HasKey;
    if n == 0 {
      assert rows + WindowRows(w, 0) == rows;
      KeepsKeys(rows);
    } else {
      WorkloadAdded(rows, w, n - 1);
      assert rows + WindowRows(w, n) == rows + WindowRows(w, n - 1) + [RowOfWindow(w, w.samples[n - 1])];
      KeysOfRow(rows + WindowRows(w, n - 1), w, w.samples[n - 1]);
      GrowsOn(rows, rows + WindowRows(w, n - 1), rows + WindowRows(w, n));
    }
  }

  lemma KeepsKeys(rows: seq<CsvRow>)
    ensures KeysGrow(rows, rows)
  {
  }

  lemma GrowsOn(a: seq<CsvRow>, b: seq<CsvRow>, c: seq<CsvRow>)
    requires KeysGrow(a, b) && KeysGrow(b, c)
    ensures KeysGrow(a, c)
  {
  }

  lemma KeysOfRow(rows: seq<CsvRow>, w: Window, sample: EnergySample)
    ensures var longer := rows + [RowOfWindow(w, sample)]; KeysGrow(rows, longer) && HasKey(longer, w)
  {
    hide WorkloadRows, BaselineRows, Keys;
    KeysWithRow(rows, RowOfWindow(w, sample));
  }

  lemma KeysWithRow(rows: seq<CsvRow>, row: CsvRow)
    ensures Keys(WorkloadRows(rows + [row])) ==
            if row.Workload? && row.identity !in Keys(WorkloadRows(rows))
            then Keys(WorkloadRows(rows)) + [row.identity] else Keys(WorkloadRows(rows))
    ensures Keys(BaselineRows(rows + [row])) ==
            if row.Baseline? && row.run !in Keys(BaselineRows(rows))
            then Keys(BaselineRows(rows)) + [row.run] else Keys(BaselineRows(rows))
  {
    assert (rows + [row])[..|rows|] == rows;
    match row {
      case Workload(id, run, throttled, sample) =>
        KeysAppend(WorkloadRows(rows), (id, (run, (throttled, sample))));
        assert BaselineRows(rows) + [] == BaselineRows(rows);
      case Baseline(run, sample) =>
        KeysAppend(BaselineRows(rows), (run, sample));
        assert WorkloadRows(rows) + [] == WorkloadRows(rows);
    }
  }

  /** Every window with samples is found among the keys of the loaded file. */
  lemma {:induction false} WindowIsKey(windows: seq<Window>, i: nat)
    requires i < |windows| && windows[i].samples != []
    ensures windows[i].WorkloadWindow? ==> windows[i].identity in Keys(WorkloadRows(FileRows(windows)))
    ensures windows[i].BaselineWindow? ==> windows[i].run in Keys(BaselineRows(FileRows(windows)))
  {
    hide Keys, WorkloadRows, BaselineRows;
    var n := |windows| - 1;
    var last := windows[n];
    WorkloadAdded(FileRows(windows[..n]), last, |last.samples|);
    if i < n {
      WindowIsKey(windows[..n], i);
      assert windows[..n][i] == windows[i];
    }
  }

  /** Every scheduled case has a window. */
  lemma {:induction false} CaseHasWindow(windows: seq<Window>, schedule: seq<CaseName>, runs: nat, name: CaseName)
    returns (i: nat)
    requires AreCases(windows, schedule, runs) && name in schedule && runs > 0
    ensures i < |windows| && windows[i].WorkloadWindow? && windows[i].identity == IdentityOf(CpabeRsa, name)
    decreases |schedule|
  {
    var n := |schedule| - 1;
    var own := windows[|windows| - runs..];
    if schedule[n] == name {
      i := |windows| - runs;
      assert windows[i] == own[0];
    } else {
      assert name in schedule[..n] by {
        var k :| 0 <= k < |schedule| && schedule[k] == name;
        assert schedule[..n][k] == name;
      }
      i := CaseHasWindow(windows[..|windows| - runs], schedule[..n], runs, name);
    }
  }

  lemma EnergyScheduled(p: Parameters, c: ReportCase, v: nat)
    requires c in CASE_ORDER && v in EnergyMemoryValues(p, c)
    ensures CaseName(c.operation, c.algorithm, v) in EnergySchedule(p)
  {
    InCaseOrder(c);
    var name := CaseName(c.operation, c.algorithm, v);
    CasesOfMembers(CPABE_ATTRIBUTES, ["Encrypt", "Decrypt"], p.attributeCounts, name);
    CasesOfMembers(RSA_SUBSCRIBERS, ["Encrypt"], p.subscriberCounts, name);
    var both := ["Encrypt", "Decrypt"];
    assert both[0] == "Encrypt" && both[1] == "Decrypt" && ["Encrypt"][0] == "Encrypt";
  }

  lemma EnergyFoundFor(p: Parameters, windows: seq<Window>, c: ReportCase, v: nat)
    requires p.runs > 0 && IsEnergyFile(windows, p) && Sampled(windows)
    requires c in CASE_ORDER && v in EnergyMemoryValues(p, c)
    ensures c.algorithm in PARAMETER_BY_ALGORITHM
    ensures EnergyFound(GroupByNested(WorkloadRows(FileRows(windows))), Demanded(c, v))
  {
    hide WorkloadRows, FileRows, Keys, AreCases, EnergySchedule, EnergyMemoryValues;
    CaseNames(c);
    EnergyScheduled(p, c, v);
    var name := CaseName(c.operation, c.algorithm, v);
    var i := CaseHasWindow(windows[p.runs..], EnergySchedule(p), p.runs, name);
    assert windows[p.runs..][i] == windows[p.runs + i];
    WindowIsKey(windows, p.runs + i);
    assert windows[p.runs + i].identity == Demanded(c, v);
    NestedFound(WorkloadRows(FileRows(windows)), Demanded(c, v));
  }

  lemma NestedFound(rows: seq<EnergyRow>, id: Identity)
    requires id in Keys(rows)
    ensures EnergyFound(GroupByNested(rows), id)
  {
    FindInGroupBy(rows, id);
    FindSameKeys(GroupBy(rows), GroupByNested(rows), id);
    CollectNestedIsGroupBy(rows);
    NoCaseIsEmpty(rows);
    SelectSome(rows, id);
    var own := Select(rows, id);
    assert own[0].0 in Keys(own);
  }

  /** Every energy aggregation the report asks for is there with samples in each of its cases, and so are the
      baselines. */
  lemma EnergyLookupsSucceed(p: Parameters, windows: seq<Window>)
    requires p.runs > 0 && IsEnergyFile(windows, p) && Sampled(windows)
    ensures var rows := FileRows(windows);
            EnergyComplete(p, GroupByNested(WorkloadRows(rows)), GroupBy(BaselineRows(rows)))
  {
    hide EnergyFound, WorkloadRows, BaselineRows, FileRows, IsEnergyFile, EnergyMemoryValues;
    BaselinesFound(p, windows);
    var rows := FileRows(windows);
    forall c, v | c in CASE_ORDER && v in EnergyMemoryValues(p, c)
      ensures c.algorithm in PARAMETER_BY_ALGORITHM
      ensures EnergyFound(GroupByNested(WorkloadRows(rows)), Demanded(c, v))
    {
      EnergyFoundFor(p, windows, c, v);
    }
  }

  lemma FixedIsAsked(p: Parameters)
    ensures var c := ReportCase(RSA_KEY_BITS, "Decrypt");
            c in CASE_ORDER && p.fixedRsaKeyBits in EnergyMemoryValues(p, c) && TimingValues(p, c.algorithm) == p.rsaKeyBits
  {
    InCaseOrder(ReportCase(RSA_KEY_BITS, "Decrypt"));
  }

  lemma BaselinesFound(p: Parameters, windows: seq<Window>)
    requires p.runs > 0 && IsEnergyFile(windows, p) && Sampled(windows)
    ensures var baselines := GroupBy(BaselineRows(FileRows(windows)));
            baselines != [] && forall k :: 0 <= k < |baselines| ==> baselines[k].items != []
  {
    hide WorkloadRows, FileRows, AreCases, EnergySchedule;
    var rows := BaselineRows(FileRows(windows));
    assert windows[..p.runs][0] == windows[0];
    WindowIsKey(windows, 0);
    CollectConserves(rows);
    CollectIsGroupBy(rows);
  }

  lemma NothingMeasured(p: Parameters, windows: seq<Window>)
    requires p.runs == 0 && IsEnergyFile(windows, p)
    ensures GroupBy(BaselineRows(FileRows(windows))) == []
  {
    NoRunsNoWindows(windows[0..], EnergySchedule(p));
    assert windows == [];
  }

  /** The readings of a result file of this scenario. */
  function ReadingsOf(text: seq<Line>): seq<Reading> {
    Readings(CpabeRsa, CasePrefix(CpabeRsa).value, text).readings
  }
}
