/** What the CP-ABE/RSA orchestrator measures, and the text and energy rows it produces. */
module CpabeRsaSchedule {
  import opened Wrappers
  import opened Grouping
  import opened BenchmarkText
  import opened BenchmarkResults
  import opened TimingResults
  import opened EnergySummary
  import opened MemoryResults

  datatype Parameters = Parameters(
    runs: nat, attributeCounts: seq<nat>, subscriberCounts: seq<nat>, rsaKeyBits: seq<nat>, fixedRsaKeyBits: nat)

  const CPABE_ATTRIBUTES := "CPABEAttributes"
  const RSA_SUBSCRIBERS := "RSASubscribers"
  const RSA_KEY_BITS := "RSAKeyBits"

  // ---- schedules ---------------------------------------------------------------------------

  /** One case per value for each of the operations, value by value. */
  function CasesOf(algorithm: string, operations: seq<string>, values: seq<nat>): seq<CaseName> {
    if values == [] then []
    else
      CasesOf(algorithm, operations, values[..|values| - 1])
      + seq(|operations|, i requires 0 <= i < |operations| =>
              CaseName(operations[i], algorithm, values[|values| - 1]))
  }

  function TimingSchedule(p: Parameters): seq<CaseName> {
    CasesOf(CPABE_ATTRIBUTES, ["Encrypt", "Decrypt"], p.attributeCounts)
    + CasesOf(RSA_SUBSCRIBERS, ["Encrypt"], p.subscriberCounts)
    + CasesOf(RSA_KEY_BITS, ["Encrypt", "Decrypt"], p.rsaKeyBits)
  }

  /** Energy and memory use only the fixed key size for RSA decryption. */
  function EnergySchedule(p: Parameters): seq<CaseName> {
    CasesOf(CPABE_ATTRIBUTES, ["Encrypt", "Decrypt"], p.attributeCounts)
    + CasesOf(RSA_SUBSCRIBERS, ["Encrypt"], p.subscriberCounts)
    + [CaseName("Decrypt", RSA_KEY_BITS, p.fixedRsaKeyBits)]
  }

  function MemorySchedule(p: Parameters): seq<CaseName> {
    [CaseName("MemoryBaseline", "Runtime", 0)]
    + CasesOf(CPABE_ATTRIBUTES, ["MemoryEncrypt", "MemoryDecrypt"], p.attributeCounts)
    + CasesOf(RSA_SUBSCRIBERS, ["MemoryEncrypt"], p.subscriberCounts)
    + [CaseName("MemoryDecrypt", RSA_KEY_BITS, p.fixedRsaKeyBits)]
  }

  lemma {:induction false} CasesOfMembers(algorithm: string, operations: seq<string>, values: seq<nat>, c: CaseName)
    ensures c in CasesOf(algorithm, operations, values) <==>
              c.algorithm == algorithm && c.operation in operations && c.parameterValue in values
  {
    if values != [] {
      var n := |values| - 1;
      CasesOfMembers(algorithm, operations, values[..n], c);
      var last := seq(|operations|, i requires 0 <= i < |operations| => CaseName(operations[i], algorithm, values[n]));
      assert values == values[..n] + [values[n]];
      assert c in last <==> c.algorithm == algorithm && c.operation in operations && c.parameterValue == values[n] by {
        if c.algorithm == algorithm && c.operation in operations && c.parameterValue == values[n] {
          var i :| 0 <= i < |operations| && operations[i] == c.operation;
          assert last[i] == c;
        }
      }
    }
  }

  lemma TimingIsScheduled(p: Parameters, c: CaseName)
    ensures c in TimingSchedule(p) <==>
              || (c.algorithm == "CPABEAttributes" && c.operation in {"Encrypt", "Decrypt"}
                  && c.parameterValue in p.attributeCounts)
              || (c.algorithm == "RSASubscribers" && c.operation == "Encrypt" && c.parameterValue in p.subscriberCounts)
              || (c.algorithm == "RSAKeyBits" && c.operation in {"Encrypt", "Decrypt"} && c.parameterValue in p.rsaKeyBits)
  {
    CasesOfMembers(CPABE_ATTRIBUTES, ["Encrypt", "Decrypt"], p.attributeCounts, c);
    CasesOfMembers(RSA_SUBSCRIBERS, ["Encrypt"], p.subscriberCounts, c);
    CasesOfMembers(RSA_KEY_BITS, ["Encrypt", "Decrypt"], p.rsaKeyBits, c);
  }

  lemma EnergyIsScheduled(p: Parameters, c: CaseName)
    ensures c in EnergySchedule(p) <==>
              || (c.algorithm == "CPABEAttributes" && c.operation in {"Encrypt", "Decrypt"}
                  && c.parameterValue in p.attributeCounts)
              || (c.algorithm == "RSASubscribers" && c.operation == "Encrypt" && c.parameterValue in p.subscriberCounts)
              || c == CaseName("Decrypt", "RSAKeyBits", p.fixedRsaKeyBits)
  {
    CasesOfMembers(CPABE_ATTRIBUTES, ["Encrypt", "Decrypt"], p.attributeCounts, c);
    CasesOfMembers(RSA_SUBSCRIBERS, ["Encrypt"], p.subscriberCounts, c);
  }

  lemma MemoryIsScheduled(p: Parameters, c: CaseName)
    ensures c in MemorySchedule(p) <==>
              || c == CaseName("MemoryBaseline", "Runtime", 0)
              || (c.algorithm == "CPABEAttributes" && c.operation in {"MemoryEncrypt", "MemoryDecrypt"}
                  && c.parameterValue in p.attributeCounts)
              || (c.algorithm == "RSASubscribers" && c.operation == "MemoryEncrypt"
                  && c.parameterValue in p.subscriberCounts)
              || c == CaseName("MemoryDecrypt", "RSAKeyBits", p.fixedRsaKeyBits)
  {
    CasesOfMembers(CPABE_ATTRIBUTES, ["MemoryEncrypt", "MemoryDecrypt"], p.attributeCounts, c);
    CasesOfMembers(RSA_SUBSCRIBERS, ["MemoryEncrypt"], p.subscriberCounts, c);
  }

  // ---- timing text -------------------------------------------------------------------------

  datatype ResultFile = TimingFile | MemoryFile

  /** A result line carries what the converter of its file needs. */
  ghost predicate Carries(file: ResultFile, c: CaseName, measured: Measurements) {
    match file
    case TimingFile =>
      forall m: Measurement | Reports(CpabeRsa, c.algorithm, OperationOf(c.operation), m) :: Unit(m) in measured
    case MemoryFile => PEAK_RSS in measured
  }

  /** A result line of a case: its printed name, then readable pairs with all that its converter needs. */
  ghost predicate PrintedFor(file: ResultFile, line: Line, c: CaseName) {
    && line != []
    && (exists processors :: line[0].text == CasePrefix(CpabeRsa).value + PrintName(c, false, processors))
    && Pairs(line, 2).Ok? && Carries(file, c, Pairs(line, 2).value)
  }

  predicate OtherLine(line: Line) {
    line == [] || !Starts(line[0].text, CasePrefix(CpabeRsa).value)
  }

  /** The lines hold one result line per case of the plan, in order, among lines that are no results. */
  ghost predicate Printed(file: ResultFile, lines: seq<Line>, plan: seq<CaseName>) {
    if lines == [] then plan == []
    else
      var n := |lines| - 1;
      || (OtherLine(lines[n]) && Printed(file, lines[..n], plan))
      || (plan != [] && PrintedFor(file, lines[n], plan[|plan| - 1]) && Printed(file, lines[..n], plan[..|plan| - 1]))
  }

  lemma {:induction false} PrintedAppend(file: ResultFile, a: seq<Line>, planA: seq<CaseName>, b: seq<Line>,
                                         planB: seq<CaseName>)
    requires Printed(file, a, planA) && Printed(file, b, planB)
    ensures Printed(file, a + b, planA + planB)
  {
    if b == [] {
      assert a + b == a && planA + planB == planA;
    } else {
      var n := |b| - 1;
      assert (a + b)[..|a + b| - 1] == a + b[..n];
      if OtherLine(b[n]) && Printed(file, b[..n], planB) {
        PrintedAppend(file, a, planA, b[..n], planB);
      } else {
        PrintedAppend(file, a, planA, b[..n], planB[..|planB| - 1]);
        assert (planA + planB)[..|planA + planB| - 1] == planA + planB[..|planB| - 1];
      }
    }
  }

  predicate CleanName(c: CaseName) {
    '/' !in c.operation && '/' !in c.algorithm
  }

  /** The reading of a printed case has its identity and all its converter needs. */
  ghost predicate ReadingOf(file: ResultFile, reading: Reading, c: CaseName) {
    && reading.identity == IdentityOf(CpabeRsa, c) && reading.baseline == IsBaseline(c)
    && Carries(file, c, reading.measurements)
  }

  lemma OtherIsSkipped(line: Line)
    requires OtherLine(line)
    ensures ReadLine(CpabeRsa, CasePrefix(CpabeRsa).value, line) == Ok(None)
  {
  }

  lemma PrintedForIsRead(file: ResultFile, line: Line, c: CaseName)
    requires PrintedFor(file, line, c) && CleanName(c)
    ensures var read := ReadLine(CpabeRsa, CasePrefix(CpabeRsa).value, line);
            read.Ok? && read.value.Some? && ReadingOf(file, read.value.value, c)
  {
    hide ParseName, PrintName, Carries;
    var prefix := CasePrefix(CpabeRsa).value;
    var processors :| line[0].text == prefix + PrintName(c, false, processors);
    NameRoundTrip(c, false, processors);
    assert line[0].text[|prefix|..] == PrintName(c, false, processors);
  }

  /** The reader finds exactly the planned cases, in order, and no malformed line. */
  lemma {:induction false} PrintedIsRead(file: ResultFile, lines: seq<Line>, plan: seq<CaseName>)
    requires Printed(file, lines, plan) && forall i :: 0 <= i < |plan| ==> CleanName(plan[i])
    ensures var yielded := Readings(CpabeRsa, CasePrefix(CpabeRsa).value, lines);
            && yielded.failure == None && |yielded.readings| == |plan|
            && forall i :: 0 <= i < |plan| ==> ReadingOf(file, yielded.readings[i], plan[i])
  {
    hide PrintedFor, ReadingOf, ReadLine, CleanName;
    if lines != [] {
      var n := |lines| - 1;
      if OtherLine(lines[n]) && Printed(file, lines[..n], plan) {
        OtherIsSkipped(lines[n]);
        PrintedIsRead(file, lines[..n], plan);
      } else {
        PrintedIsRead(file, lines[..n], plan[..|plan| - 1]);
        PrintedForIsRead(file, lines[n], plan[|plan| - 1]);
      }
    }
  }

  function Repeat(c: CaseName, runs: nat): seq<CaseName> {
    seq(runs, _ => c)
  }

  /** Every case `runs` times, case by case. */
  function Plan(schedule: seq<CaseName>, runs: nat): seq<CaseName> {
    if schedule == [] then []
    else Plan(schedule[..|schedule| - 1], runs) + Repeat(schedule[|schedule| - 1], runs)
  }

  lemma {:induction false} PlanMembers(schedule: seq<CaseName>, runs: nat, c: CaseName)
    ensures c in Plan(schedule, runs) <==> c in schedule && runs > 0
  {
    if schedule != [] {
      var n := |schedule| - 1;
      PlanMembers(schedule[..n], runs, c);
      assert schedule == schedule[..n] + [schedule[n]];
      assert runs > 0 ==> Repeat(schedule[n], runs)[0] == schedule[n];
    }
  }

  /** The process of one timing case: whatever it prints is appended to the file. */
  method RunTimingCase(output: seq<Line>, ghost plan: seq<CaseName>, c: CaseName, runs: nat, printed: seq<Line>)
    returns (longer: seq<Line>)
    requires Printed(TimingFile, output, plan) && Printed(TimingFile, printed, Repeat(c, runs))
    ensures Printed(TimingFile, longer, plan + Repeat(c, runs))
  {
    PrintedAppend(TimingFile, output, plan, printed, Repeat(c, runs));
    longer := output + printed;
  }

  lemma NextCases(before: seq<CaseName>, algorithm: string, operations: seq<string>, values: seq<nat>, n: nat,
                  runs: nat)
    requires n < |values| && 1 <= |operations| <= 2
    ensures var step := Plan(before + CasesOf(algorithm, operations, values[..n]), runs)
                        + Repeat(CaseName(operations[0], algorithm, values[n]), runs);
            Plan(before + CasesOf(algorithm, operations, values[..n + 1]), runs) ==
            if |operations| == 1 then step else step + Repeat(CaseName(operations[1], algorithm, values[n]), runs)
  {
    assert values[..n + 1][..n] == values[..n];
    var so, first := before + CasesOf(algorithm, operations, values[..n]), CaseName(operations[0], algorithm, values[n]);
    assert (so + [first])[..|so|] == so;
    if |operations| == 1 {
      assert before + CasesOf(algorithm, operations, values[..n + 1]) == so + [first];
    } else {
      var second := CaseName(operations[1], algorithm, values[n]);
      assert (so + [first] + [second])[..|so| + 1] == so + [first];
      assert before + CasesOf(algorithm, operations, values[..n + 1]) == so + [first] + [second];
    }
  }

  lemma NoCases(before: seq<CaseName>, algorithm: string, operations: seq<string>, values: seq<nat>)
    ensures before + CasesOf(algorithm, operations, values[..0]) == before
    ensures values[..|values|] == values
  {
  }

  /** All timing cases.  `benchmark` gives what each process prints: `runs` result lines of its case. */
  method OrchestrateTiming(p: Parameters, benchmark: (CaseName, nat) -> seq<Line>) returns (output: seq<Line>)
    requires forall c, call :: Printed(TimingFile, benchmark(c, call), Repeat(c, p.runs))
    ensures Printed(TimingFile, output, Plan(TimingSchedule(p), p.runs))
  {
    hide Printed, Plan, Repeat, CasesOf;
    assert Printed(TimingFile, [], Plan([], p.runs)) by { NothingPlanned(p.runs); }
    output := [];
    var call := 0;
    ghost var before: seq<CaseName> := [];
    NoCases(before, CPABE_ATTRIBUTES, ["Encrypt", "Decrypt"], p.attributeCounts);
    for n := 0 to |p.attributeCounts|
      invariant Printed(TimingFile, output, Plan(before + CasesOf(CPABE_ATTRIBUTES, ["Encrypt", "Decrypt"], p.attributeCounts[..n]), p.runs))
    {
      var encrypt := CaseName("Encrypt", CPABE_ATTRIBUTES, p.attributeCounts[n]);
      var decrypt := CaseName("Decrypt", CPABE_ATTRIBUTES, p.attributeCounts[n]);
      ghost var plan := Plan(before + CasesOf(CPABE_ATTRIBUTES, ["Encrypt", "Decrypt"], p.attributeCounts[..n]), p.runs);
      output := RunTimingCase(output, plan, encrypt, p.runs, benchmark(encrypt, call));
      output := RunTimingCase(output, plan + Repeat(encrypt, p.runs), decrypt, p.runs, benchmark(decrypt, call + 1));
      call := call + 2;
      NextCases(before, CPABE_ATTRIBUTES, ["Encrypt", "Decrypt"], p.attributeCounts, n, p.runs);
    }
    before := CasesOf(CPABE_ATTRIBUTES, ["Encrypt", "Decrypt"], p.attributeCounts);
    assert [] + before == before;
    NoCases(before, RSA_SUBSCRIBERS, ["Encrypt"], p.subscriberCounts);
    for n := 0 to |p.subscriberCounts|
      invariant Printed(TimingFile, output, Plan(before + CasesOf(RSA_SUBSCRIBERS, ["Encrypt"], p.subscriberCounts[..n]), p.runs))
    {
      var encrypt := CaseName("Encrypt", RSA_SUBSCRIBERS, p.subscriberCounts[n]);
      ghost var plan := Plan(before + CasesOf(RSA_SUBSCRIBERS, ["Encrypt"], p.subscriberCounts[..n]), p.runs);
      output := RunTimingCase(output, plan, encrypt, p.runs, benchmark(encrypt, call));
      call := call + 1;
      NextCases(before, RSA_SUBSCRIBERS, ["Encrypt"], p.subscriberCounts, n, p.runs);
    }
    before := before + CasesOf(RSA_SUBSCRIBERS, ["Encrypt"], p.subscriberCounts);
    NoCases(before, RSA_KEY_BITS, ["Encrypt", "Decrypt"], p.rsaKeyBits);
    for n := 0 to |p.rsaKeyBits|
      invariant Printed(TimingFile, output, Plan(before + CasesOf(RSA_KEY_BITS, ["Encrypt", "Decrypt"], p.rsaKeyBits[..n]), p.runs))
    {
      var encrypt := CaseName("Encrypt", RSA_KEY_BITS, p.rsaKeyBits[n]);
      var decrypt := CaseName("Decrypt", RSA_KEY_BITS, p.rsaKeyBits[n]);
      ghost var plan := Plan(before + CasesOf(RSA_KEY_BITS, ["Encrypt", "Decrypt"], p.rsaKeyBits[..n]), p.runs);
      output := RunTimingCase(output, plan, encrypt, p.runs, benchmark(encrypt, call));
      output := RunTimingCase(output, plan + Repeat(encrypt, p.runs), decrypt, p.runs, benchmark(decrypt, call + 1));
      call := call + 2;
      NextCases(before, RSA_KEY_BITS, ["Encrypt", "Decrypt"], p.rsaKeyBits, n, p.runs);
    }
  }

  lemma NothingPlanned(runs: nat)
    ensures Printed(TimingFile, [], Plan([], runs))
  {
  }

  // ---- memory text -------------------------------------------------------------------------

  /** The runs of one memory case, a process each. */
  method RunMemoryCase(output: seq<Line>, ghost plan: seq<CaseName>, c: CaseName, runs: nat, printed: nat -> seq<Line>)
    returns (longer: seq<Line>)
    requires Printed(MemoryFile, output, plan) && forall r :: Printed(MemoryFile, printed(r), [c])
    ensures Printed(MemoryFile, longer, plan + Repeat(c, runs))
  {
    hide Printed;
    longer := output;
    assert plan + Repeat(c, 0) == plan;
    for r := 0 to runs
      invariant Printed(MemoryFile, longer, plan + Repeat(c, r))
    {
      PrintedAppend(MemoryFile, longer, plan + Repeat(c, r), printed(r), [c]);
      assert plan + Repeat(c, r) + [c] == plan + Repeat(c, r + 1);
      longer := longer + printed(r);
    }
  }

  lemma FirstPlanned(first: CaseName, runs: nat)
    ensures Printed(MemoryFile, [], []) && [] + Repeat(first, runs) == Plan([first], runs)
  {
    assert [first][..0] == [];
  }

  lemma LastPlanned(schedule: seq<CaseName>, last: CaseName, runs: nat)
    ensures Plan(schedule, runs) + Repeat(last, runs) == Plan(schedule + [last], runs)
  {
    assert (schedule + [last])[..|schedule|] == schedule;
  }

  /** All memory cases.  `benchmark` gives what each process prints: one result line of its case. */
  method OrchestrateMemory(p: Parameters, benchmark: (CaseName, nat) -> nat -> seq<Line>) returns (output: seq<Line>)
    requires forall c, call, r :: Printed(MemoryFile, benchmark(c, call)(r), [c])
    ensures Printed(MemoryFile, output, Plan(MemorySchedule(p), p.runs))
  {
    hide Printed, Plan, Repeat, CasesOf;
    var baseline := CaseName("MemoryBaseline", "Runtime", 0);
    FirstPlanned(baseline, p.runs);
    output := RunMemoryCase([], [], baseline, p.runs, benchmark(baseline, 0));
    var call := 1;
    ghost var before := [baseline];
    NoCases(before, CPABE_ATTRIBUTES, ["MemoryEncrypt", "MemoryDecrypt"], p.attributeCounts);
    for n := 0 to |p.attributeCounts|
      invariant Printed(MemoryFile, output, Plan(before + CasesOf(CPABE_ATTRIBUTES, ["MemoryEncrypt", "MemoryDecrypt"], p.attributeCounts[..n]), p.runs))
    {
      var encrypt := CaseName("MemoryEncrypt", CPABE_ATTRIBUTES, p.attributeCounts[n]);
      var decrypt := CaseName("MemoryDecrypt", CPABE_ATTRIBUTES, p.attributeCounts[n]);
      ghost var plan := Plan(before + CasesOf(CPABE_ATTRIBUTES, ["MemoryEncrypt", "MemoryDecrypt"], p.attributeCounts[..n]), p.runs);
      output := RunMemoryCase(output, plan, encrypt, p.runs, benchmark(encrypt, call));
      output := RunMemoryCase(output, plan + Repeat(encrypt, p.runs), decrypt, p.runs, benchmark(decrypt, call + 1));
      call := call + 2;
      NextCases(before, CPABE_ATTRIBUTES, ["MemoryEncrypt", "MemoryDecrypt"], p.attributeCounts, n, p.runs);
    }
    before := before + CasesOf(CPABE_ATTRIBUTES, ["MemoryEncrypt", "MemoryDecrypt"], p.attributeCounts);
    NoCases(before, RSA_SUBSCRIBERS, ["MemoryEncrypt"], p.subscriberCounts);
    for n := 0 to |p.subscriberCounts|
      invariant Printed(MemoryFile, output, Plan(before + CasesOf(RSA_SUBSCRIBERS, ["MemoryEncrypt"], p.subscriberCounts[..n]), p.runs))
    {
      var encrypt := CaseName("MemoryEncrypt", RSA_SUBSCRIBERS, p.subscriberCounts[n]);
      ghost var plan := Plan(before + CasesOf(RSA_SUBSCRIBERS, ["MemoryEncrypt"], p.subscriberCounts[..n]), p.runs);
      output := RunMemoryCase(output, plan, encrypt, p.runs, benchmark(encrypt, call));
      call := call + 1;
      NextCases(before, RSA_SUBSCRIBERS, ["MemoryEncrypt"], p.subscriberCounts, n, p.runs);
    }
    before := before + CasesOf(RSA_SUBSCRIBERS, ["MemoryEncrypt"], p.subscriberCounts);
    var fixedCase := CaseName("MemoryDecrypt", RSA_KEY_BITS, p.fixedRsaKeyBits);
    output := RunMemoryCase(output, Plan(before, p.runs), fixedCase, p.runs, benchmark(fixedCase, call));
    LastPlanned(before, fixedCase, p.runs);
  }

  // ---- energy rows -------------------------------------------------------------------------

  /** One measurement window: a run of the idle baseline, or a run of a workload and whether it throttled. */
  datatype Window =
    | BaselineWindow(run: nat, samples: seq<EnergySample>)
    | WorkloadWindow(identity: Identity, run: nat, throttled: bool, samples: seq<EnergySample>)

  /** A row carries its window's data and one sample. */
  function RowOfWindow(w: Window, sample: EnergySample): CsvRow {
    match w
    case BaselineWindow(run, _) => Baseline(run, sample)
    case WorkloadWindow(id, run, throttled, _) => Workload(id, run, if throttled then 1.0 else 0.0, sample)
  }

  function WindowRows(w: Window, n: nat): seq<CsvRow>
    requires n <= |w.samples|
  {
    if n == 0 then [] else WindowRows(w, n - 1) + [RowOfWindow(w, w.samples[n - 1])]
  }

  /** The rows of the file, window by window. */
  function FileRows(windows: seq<Window>): seq<CsvRow> {
    if windows == [] then []
    else
      var last := windows[|windows| - 1];
      FileRows(windows[..|windows| - 1]) + WindowRows(last, |last.samples|)
  }

  /** write_samples: one row per sample, each with the same window data. */
  method WriteSamples(rows: seq<CsvRow>, w: Window) returns (longer: seq<CsvRow>)
    ensures longer == rows + WindowRows(w, |w.samples|)
  {
    longer := rows;
    for n := 0 to |w.samples|
      invariant longer == rows + WindowRows(w, n)
    {
      longer := longer + [RowOfWindow(w, w.samples[n])];
    }
  }

  /** The windows of one workload case: runs 1..`runs` in order. */
  ghost predicate IsCase(windows: seq<Window>, c: CaseName, runs: nat) {
    && |windows| == runs
    && forall r :: 0 <= r < runs ==>
         && windows[r].WorkloadWindow? && windows[r].run == r + 1
         && windows[r].identity == IdentityOf(CpabeRsa, c)
  }

  /** The windows of a schedule, case by case. */
  ghost predicate AreCases(windows: seq<Window>, schedule: seq<CaseName>, runs: nat)
    decreases |schedule|
  {
    if schedule == [] then windows == []
    else
      && runs <= |windows|
      && IsCase(windows[|windows| - runs..], schedule[|schedule| - 1], runs)
      && AreCases(windows[..|windows| - runs], schedule[..|schedule| - 1], runs)
  }

  lemma {:induction false} NoRunsNoWindows(windows: seq<Window>, schedule: seq<CaseName>)
    requires AreCases(windows, schedule, 0)
    ensures windows == []
    decreases |schedule|
  {
    if schedule != [] {
      NoRunsNoWindows(windows[..|windows| - 0], schedule[..|schedule| - 1]);
    }
  }

  ghost predicate AreBaselines(windows: seq<Window>, runs: nat) {
    |windows| == runs && forall r :: 0 <= r < runs ==> windows[r].BaselineWindow? && windows[r].run == r + 1
  }

  /** A whole energy file: the baselines, then the scheduled cases. */
  ghost predicate IsEnergyFile(windows: seq<Window>, p: Parameters) {
    && p.runs <= |windows|
    && AreBaselines(windows[..p.runs], p.runs)
    && AreCases(windows[p.runs..], EnergySchedule(p), p.runs)
  }

  /** What the meter and the workload process of one window gave. */
  datatype Outcome = Outcome(returnCode: int, samples: seq<EnergySample>)

  lemma AnotherCase(windows: seq<Window>, schedule: seq<CaseName>, more: seq<Window>, c: CaseName, runs: nat)
    requires AreCases(windows, schedule, runs) && IsCase(more, c, runs)
    ensures AreCases(windows + more, schedule + [c], runs)
  {
    var all := windows + more;
    assert all[|all| - runs..] == more && all[..|all| - runs] == windows;
    assert (schedule + [c])[..|schedule|] == schedule;
  }

  lemma AnotherWindow(windows: seq<Window>, w: Window)
    ensures FileRows(windows + [w]) == FileRows(windows) + WindowRows(w, |w.samples|)
  {
    assert (windows + [w])[..|windows|] == windows;
  }

  /** The runs of one energy case.  A workload that exits with neither 0 nor 3 ends the measurement. */
  method RunEnergyCase(rows: seq<CsvRow>, c: CaseName, runs: nat, outcomes: nat -> Outcome, ghost before: seq<Window>)
    returns (longer: seq<CsvRow>, ok: bool, ghost more: seq<Window>)
    requires rows == FileRows(before)
    ensures longer == FileRows(before + more)
    ensures ok ==> IsCase(more, c, runs)
    ensures ok ==> forall r :: 0 <= r < runs ==>
              more[r].samples == outcomes(r).samples && (more[r].throttled <==> outcomes(r).returnCode == 3)
    ensures ok <==> forall r :: 0 <= r < runs ==> outcomes(r).returnCode in {0, 3}
  {
    hide FileRows;
    longer, more := rows, [];
    assert before + [] == before;
    for r := 0 to runs
      invariant longer == FileRows(before + more)
      invariant IsCase(more, c, r)
      invariant forall k :: 0 <= k < r ==>
                  && outcomes(k).returnCode in {0, 3}
                  && more[k].samples == outcomes(k).samples && (more[k].throttled <==> outcomes(k).returnCode == 3)
    {
      var outcome := outcomes(r);
      if outcome.returnCode != 0 && outcome.returnCode != 3 {
        return longer, false, more;
      }
      var window := WorkloadWindow(IdentityOf(CpabeRsa, c), r + 1, outcome.returnCode == 3, outcome.samples);
      longer := WriteSamples(longer, window);
      AnotherWindow(before + more, window);
      assert before + more + [window] == before + (more + [window]);
      more := more + [window];
    }
    ok := true;
  }

  lemma NextScheduled(before: seq<CaseName>, algorithm: string, operations: seq<string>, values: seq<nat>, n: nat)
    requires n < |values| && 1 <= |operations| <= 2
    ensures var step := before + CasesOf(algorithm, operations, values[..n])
                        + [CaseName(operations[0], algorithm, values[n])];
            before + CasesOf(algorithm, operations, values[..n + 1]) ==
            if |operations| == 1 then step else step + [CaseName(operations[1], algorithm, values[n])]
  {
    assert values[..n + 1][..n] == values[..n];
  }

  ghost predicate Sampled(windows: seq<Window>) {
    forall i :: 0 <= i < |windows| ==> windows[i].samples != []
  }

  /** The part of an energy file after the baselines. */
  ghost predicate CasesSoFar(rows: seq<CsvRow>, baselines: seq<Window>, windows: seq<Window>, schedule: seq<CaseName>,
                             runs: nat, alwaysSampled: bool) {
    && rows == FileRows(baselines + windows) && AreCases(windows, schedule, runs)
    && (alwaysSampled ==> Sampled(windows))
  }

  lemma SampledJoin(a: seq<Window>, b: seq<Window>)
    requires Sampled(a) && Sampled(b)
    ensures Sampled(a + b)
  {
  }

  lemma CasesGrow(rows: seq<CsvRow>, longer: seq<CsvRow>, baselines: seq<Window>, windows: seq<Window>,
                  schedule: seq<CaseName>, more: seq<Window>, c: CaseName, runs: nat, alwaysSampled: bool)
    requires CasesSoFar(rows, baselines, windows, schedule, runs, alwaysSampled)
    requires longer == FileRows(baselines + windows + more) && IsCase(more, c, runs)
    requires alwaysSampled ==> Sampled(more)
    ensures CasesSoFar(longer, baselines, windows + more, schedule + [c], runs, alwaysSampled)
  {
    hide FileRows, AreCases, IsCase, Sampled;
    AnotherCase(windows, schedule, more, c, runs);
    if alwaysSampled {
      SampledJoin(windows, more);
    }
    assert baselines + windows + more == baselines + (windows + more);
  }

  /** One scheduled energy case, after the ones before it. */
  method RunScheduled(rows: seq<CsvRow>, c: CaseName, runs: nat, outcomes: nat -> Outcome, ghost baselines: seq<Window>,
                      ghost windows: seq<Window>, ghost schedule: seq<CaseName>, ghost alwaysSampled: bool)
    returns (longer: seq<CsvRow>, ok: bool, ghost after: seq<Window>)
    requires CasesSoFar(rows, baselines, windows, schedule, runs, alwaysSampled)
    requires alwaysSampled ==> forall r :: outcomes(r).samples != []
    ensures ok <==> forall r :: 0 <= r < runs ==> outcomes(r).returnCode in {0, 3}
    ensures ok ==> CasesSoFar(longer, baselines, after, schedule + [c], runs, alwaysSampled)
  {
    ghost var more;
    longer, ok, more := RunEnergyCase(rows, c, runs, outcomes, baselines + windows);
    after := windows + more;
    if ok {
      assert |more| == runs;
      CasesGrow(rows, longer, baselines, windows, schedule, more, c, runs, alwaysSampled);
    }
    hide FileRows, AreCases, IsCase, CasesSoFar;
  }

  /** The baseline windows at the start of the file. */
  method RunBaselines(runs: nat, baseline: nat -> seq<EnergySample>)
    returns (rows: seq<CsvRow>, ghost baselines: seq<Window>)
    ensures rows == FileRows(baselines) && AreBaselines(baselines, runs)
    ensures (forall r :: baseline(r) != []) ==> Sampled(baselines)
  {
    hide FileRows;
    assert FileRows([]) == [] by { NoRows(); }
    rows, baselines := [], [];
    for r := 0 to runs
      invariant rows == FileRows(baselines) && AreBaselines(baselines, r)
      invariant (forall r :: baseline(r) != []) ==> Sampled(baselines)
    {
      var window := BaselineWindow(r + 1, baseline(r));
      rows := WriteSamples(rows, window);
      AnotherWindow(baselines, window);
      baselines := baselines + [window];
    }
  }

  lemma NoRows()
    ensures FileRows([]) == []
  {
  }

  /** All energy windows, `call` numbering the cases.  If every workload exits with 0 or 3 the file holds the
      baselines and then every scheduled case, each with runs 1..`runs`. */
  method OrchestrateEnergy(p: Parameters, baseline: nat -> seq<EnergySample>, outcomes: nat -> nat -> Outcome)
    returns (rows: seq<CsvRow>, ok: bool, ghost windows: seq<Window>)
    ensures (forall call, r :: outcomes(call)(r).returnCode in {0, 3}) ==> ok
    ensures ok ==> rows == FileRows(windows) && IsEnergyFile(windows, p)
    ensures ok && (forall r :: baseline(r) != []) && (forall call, r :: outcomes(call)(r).samples != []) ==>
              Sampled(windows)
  {
    hide CasesSoFar, AreCases, CasesOf, FileRows;
    ghost var always := (forall r :: baseline(r) != []) && (forall call, r :: outcomes(call)(r).samples != []);
    ghost var baselines;
    windows := [];
    rows, baselines := RunBaselines(p.runs, baseline);
    var call := 0;
    ghost var cases: seq<Window>, before: seq<CaseName> := [], [];
    assert CasesSoFar(rows, baselines, cases, [], p.runs, always) by { NoCasesYet(rows, baselines, p.runs, always); }
    NoCases(before, CPABE_ATTRIBUTES, ["Encrypt", "Decrypt"], p.attributeCounts);
    for n := 0 to |p.attributeCounts|
      invariant CasesSoFar(rows, baselines, cases,
                           before + CasesOf(CPABE_ATTRIBUTES, ["Encrypt", "Decrypt"], p.attributeCounts[..n]), p.runs, always)
    {
      ghost var done := before + CasesOf(CPABE_ATTRIBUTES, ["Encrypt", "Decrypt"], p.attributeCounts[..n]);
      var encrypt := CaseName("Encrypt", CPABE_ATTRIBUTES, p.attributeCounts[n]);
      var decrypt := CaseName("Decrypt", CPABE_ATTRIBUTES, p.attributeCounts[n]);
      rows, ok, cases := RunScheduled(rows, encrypt, p.runs, outcomes(call), baselines, cases, done, always);
      if !ok {
        return;
      }
      rows, ok, cases := RunScheduled(rows, decrypt, p.runs, outcomes(call + 1), baselines, cases, done + [encrypt], always);
      if !ok {
        return;
      }
      call := call + 2;
      NextScheduled(before, CPABE_ATTRIBUTES, ["Encrypt", "Decrypt"], p.attributeCounts, n);
    }
    before := CasesOf(CPABE_ATTRIBUTES, ["Encrypt", "Decrypt"], p.attributeCounts);
    assert [] + before == before;
    NoCases(before, RSA_SUBSCRIBERS, ["Encrypt"], p.subscriberCounts);
    for n := 0 to |p.subscriberCounts|
      invariant CasesSoFar(rows, baselines, cases,
                           before + CasesOf(RSA_SUBSCRIBERS, ["Encrypt"], p.subscriberCounts[..n]), p.runs, always)
    {
      ghost var done := before + CasesOf(RSA_SUBSCRIBERS, ["Encrypt"], p.subscriberCounts[..n]);
      var encrypt := CaseName("Encrypt", RSA_SUBSCRIBERS, p.subscriberCounts[n]);
      rows, ok, cases := RunScheduled(rows, encrypt, p.runs, outcomes(call), baselines, cases, done, always);
      if !ok {
        return;
      }
      call := call + 1;
      NextScheduled(before, RSA_SUBSCRIBERS, ["Encrypt"], p.subscriberCounts, n);
    }
    before := before + CasesOf(RSA_SUBSCRIBERS, ["Encrypt"], p.subscriberCounts);
    var fixedCase := CaseName("Decrypt", RSA_KEY_BITS, p.fixedRsaKeyBits);
    rows, ok, cases := RunScheduled(rows, fixedCase, p.runs, outcomes(call), baselines, cases, before, always);
    windows := baselines + cases;
    if ok {
      WholeFile(p, rows, baselines, cases, always);
    }
  }

  lemma NoCasesYet(rows: seq<CsvRow>, baselines: seq<Window>, runs: nat, alwaysSampled: bool)
    requires rows == FileRows(baselines)
    ensures CasesSoFar(rows, baselines, [], [], runs, alwaysSampled)
  {
    assert baselines + [] == baselines;
  }

  lemma WholeFile(p: Parameters, rows: seq<CsvRow>, baselines: seq<Window>, cases: seq<Window>, alwaysSampled: bool)
    requires AreBaselines(baselines, p.runs) && (alwaysSampled ==> Sampled(baselines))
    requires CasesSoFar(rows, baselines, cases, EnergySchedule(p), p.runs, alwaysSampled)
    ensures rows == FileRows(baselines + cases) && IsEnergyFile(baselines + cases, p)
    ensures alwaysSampled ==> Sampled(baselines + cases)
  {
    assert (baselines + cases)[..p.runs] == baselines && (baselines + cases)[p.runs..] == cases;
  }
}
