/** The throttle flag of an energy case.  The loader keeps the flag of a case's first row; this module says
    for which parameters that flag is the flag of every window of the case, whatever the windows' exit codes. */
module EnergyFlags {
  import opened Wrappers
  import opened Grouping
  import opened BenchmarkText
  import opened BenchmarkResults
  import opened EnergySummary
  import opened CpabeRsaSchedule

  // ---- what a case holds -------------------------------------------------------------------

  /** The rows of one identity and run in a file, one more row. */
  lemma RowAdded(rows: seq<CsvRow>, row: CsvRow, id: Identity, run: nat)
    ensures RunRows(rows + [row], id, run) ==
            if row.Workload? && row.identity == id && row.run == run
            then RunRows(rows, id, run) + [(row.throttled, row.sample)] else RunRows(rows, id, run)
  {
    assert (rows + [row])[..|rows|] == rows;
    var w := WorkloadRows(rows);
    if row.Workload? {
      SelectAppend(w, (row.identity, (row.run, (row.throttled, row.sample))), id);
      if row.identity == id {
        SelectAppend<nat, (real, EnergySample)>(Select(w, id), (row.run, (row.throttled, row.sample)), run);
      }
    } else {
      assert w + [] == w;
    }
  }

  function Flag(throttled: bool): real {
    if throttled then 1.0 else 0.0
  }

  /** The samples of a window with the window's flag. */
  function Flagged(w: Window, n: nat): seq<(real, EnergySample)>
    requires w.WorkloadWindow? && n <= |w.samples|
  {
    if n == 0 then [] else Flagged(w, n - 1) + [(Flag(w.throttled), w.samples[n - 1])]
  }

  predicate Measures(w: Window, id: Identity, run: nat) {
    w.WorkloadWindow? && w.identity == id && w.run == run
  }

  /** The samples of all windows of one identity and run, window by window. */
  function Matching(windows: seq<Window>, id: Identity, run: nat): seq<(real, EnergySample)> {
    if windows == [] then []
    else
      var last := windows[|windows| - 1];
      var before := Matching(windows[..|windows| - 1], id, run);
      if Measures(last, id, run) then before + Flagged(last, |last.samples|) else before
  }

  lemma {:induction false} WindowAdded(rows: seq<CsvRow>, w: Window, n: nat, id: Identity, run: nat)
    requires n <= |w.samples|
    ensures RunRows(rows + WindowRows(w, n), id, run) ==
            if Measures(w, id, run) then RunRows(rows, id, run) + Flagged(w, n) else RunRows(rows, id, run)
  {
    hide RunRows;
    if n == 0 {
      assert rows + WindowRows(w, 0) == rows;
      assert Measures(w, id, run) ==> RunRows(rows, id, run) + Flagged(w, 0) == RunRows(rows, id, run);
    } else {
      WindowAdded(rows, w, n - 1, id, run);
      var row := RowOfWindow(w, w.samples[n - 1]);
      assert rows + WindowRows(w, n) == rows + WindowRows(w, n - 1) + [row];
      RowAdded(rows + WindowRows(w, n - 1), row, id, run);
      if Measures(w, id, run) {
        var so, last := RunRows(rows, id, run), (Flag(w.throttled), w.samples[n - 1]);
        assert Flagged(w, n) == Flagged(w, n - 1) + [last];
        assert so + Flagged(w, n) == so + Flagged(w, n - 1) + [last];
      }
    }
  }

  /** What a case holds after loading: the windows of its identity and run. */
  lemma {:induction false} CaseIsItsWindows(windows: seq<Window>, id: Identity, run: nat)
    ensures RunRows(FileRows(windows), id, run) == Matching(windows, id, run)
  {
    hide RunRows;
    if windows != [] {
      var last := windows[|windows| - 1];
      CaseIsItsWindows(windows[..|windows| - 1], id, run);
      WindowAdded(FileRows(windows[..|windows| - 1]), last, |last.samples|, id, run);
    } else {
      NoRunRows(id, run);
    }
  }

  lemma NoRunRows(id: Identity, run: nat)
    ensures RunRows([], id, run) == []
  {
  }

  ghost predicate Holds(items: seq<(real, EnergySample)>, flag: real) {
    exists k :: 0 <= k < |items| && items[k].0 == flag
  }

  ghost predicate SomeWindow(windows: seq<Window>, id: Identity, run: nat, throttled: bool) {
    exists i :: 0 <= i < |windows| && Measures(windows[i], id, run) && windows[i].samples != []
                && windows[i].throttled == throttled
  }

  /** A case has a row with a flag exactly when one of its windows has it. */
  lemma {:induction false} FlagsOfCase(windows: seq<Window>, id: Identity, run: nat, throttled: bool)
    ensures Holds(Matching(windows, id, run), Flag(throttled)) <==> SomeWindow(windows, id, run, throttled)
  {
    if windows != [] {
      var n := |windows| - 1;
      var last := windows[n];
      FlagsOfCase(windows[..n], id, run, throttled);
      var before := Matching(windows[..n], id, run);
      assert SomeWindow(windows, id, run, throttled) <==>
             SomeWindow(windows[..n], id, run, throttled)
             || (Measures(last, id, run) && last.samples != [] && last.throttled == throttled) by {
        if SomeWindow(windows[..n], id, run, throttled) {
          var i :| 0 <= i < n && Measures(windows[..n][i], id, run) && windows[..n][i].samples != []
                   && windows[..n][i].throttled == throttled;
          assert windows[i] == windows[..n][i];
        }
      }
      if Measures(last, id, run) {
        FlaggedAll(last, |last.samples|);
        HoldsEither(before, Flagged(last, |last.samples|), Flag(throttled));
        if last.samples != [] {
          assert Flagged(last, |last.samples|)[0].0 == Flag(last.throttled);
        }
      }
    }
  }

  lemma HoldsEither(a: seq<(real, EnergySample)>, b: seq<(real, EnergySample)>, flag: real)
    ensures Holds(a + b, flag) <==> Holds(a, flag) || Holds(b, flag)
  {
    if Holds(a, flag) {
      var k :| 0 <= k < |a| && a[k].0 == flag;
      assert (a + b)[k].0 == flag;
    }
    if Holds(b, flag) {
      var k :| 0 <= k < |b| && b[k].0 == flag;
      assert (a + b)[|a| + k].0 == flag;
    }
  }

  /** The rows of a case agree on the flag, so that the stored one is every window's, exactly when its
      windows do not include a throttled and an unthrottled one. */
  lemma FlagKeptExactlyWhen(windows: seq<Window>, id: Identity, run: nat)
    ensures var items := RunRows(FileRows(windows), id, run);
            (forall k :: 0 <= k < |items| ==> items[k].0 == items[0].0) <==>
            !(SomeWindow(windows, id, run, true) && SomeWindow(windows, id, run, false))
  {
    hide RunRows, FileRows, SomeWindow;
    CaseIsItsWindows(windows, id, run);
    FlagsOfCase(windows, id, run, true);
    FlagsOfCase(windows, id, run, false);
    OnlyFlags(windows, id, run);
    var items := Matching(windows, id, run);
    if items != [] && !Holds(items, 0.0) {
      assert forall k :: 0 <= k < |items| ==> items[k].0 == 1.0;
    }
    if items != [] && !Holds(items, 1.0) {
      assert forall k :: 0 <= k < |items| ==> items[k].0 == 0.0;
    }
  }

  lemma {:induction false} OnlyFlags(windows: seq<Window>, id: Identity, run: nat)
    ensures forall k :: 0 <= k < |Matching(windows, id, run)| ==>
              Matching(windows, id, run)[k].0 == 0.0 || Matching(windows, id, run)[k].0 == 1.0
  {
    if windows != [] {
      var last := windows[|windows| - 1];
      OnlyFlags(windows[..|windows| - 1], id, run);
      if Measures(last, id, run) {
        FlaggedAll(last, |last.samples|);
      }
    }
  }

  // ---- runs that are measured once ---------------------------------------------------------

  /** No identity and run is measured twice. */
  ghost predicate MeasuredOnce(windows: seq<Window>) {
    forall i, j :: 0 <= i < j < |windows| && windows[i].WorkloadWindow? && windows[j].WorkloadWindow? ==>
      !(windows[i].identity == windows[j].identity && windows[i].run == windows[j].run)
  }

  lemma {:induction false} MatchesOne(windows: seq<Window>, i: nat, id: Identity, run: nat)
    requires MeasuredOnce(windows)
    requires i <= |windows| && (i < |windows| ==> Measures(windows[i], id, run))
    requires i == |windows| ==> forall j :: 0 <= j < |windows| ==> !Measures(windows[j], id, run)
    ensures Matching(windows, id, run) == if i == |windows| then [] else Flagged(windows[i], |windows[i].samples|)
  {
    if windows != [] {
      var n := |windows| - 1;
      if i < n {
        MatchesOne(windows[..n], i, id, run);
      } else {
        forall j | 0 <= j < n
          ensures !Measures(windows[j], id, run)
        {
          if i == n {
            assert windows[n].WorkloadWindow?;
          }
        }
        MatchesOne(windows[..n], n, id, run);
        if i == n {
          assert [] + Flagged(windows[n], |windows[n].samples|) == Flagged(windows[n], |windows[n].samples|);
        }
      }
    }
  }

  lemma {:induction false} FlaggedAll(w: Window, n: nat)
    requires w.WorkloadWindow? && n <= |w.samples|
    ensures |Flagged(w, n)| == n && forall k :: 0 <= k < n ==> Flagged(w, n)[k] == (Flag(w.throttled), w.samples[k])
  {
    if n > 0 {
      FlaggedAll(w, n - 1);
    }
  }

  predicate NoRepeats<T(==)>(s: seq<T>) {
    forall i, j :: 0 <= i < j < |s| ==> s[i] != s[j]
  }

  lemma Repetition<T>(s: seq<T>) returns (i: nat, j: nat)
    requires !NoRepeats(s)
    ensures i < j < |s| && s[i] == s[j]
  {
    i, j :| 0 <= i < j < |s| && s[i] == s[j];
  }

  lemma NoRepeatsJoin<T>(a: seq<T>, b: seq<T>)
    ensures NoRepeats(a + b) <==> NoRepeats(a) && NoRepeats(b) && forall x <- b :: x !in a
  {
    var s := a + b;
    if NoRepeats(s) {
      forall i, j | 0 <= i < j < |a|
        ensures a[i] != a[j]
      {
        assert s[i] != s[j];
      }
      forall i, j | 0 <= i < j < |b|
        ensures b[i] != b[j]
      {
        assert s[|a| + i] != s[|a| + j];
      }
      forall i, j | 0 <= i < |a| && 0 <= j < |b|
        ensures a[i] != b[j]
      {
        assert s[i] != s[|a| + j];
      }
    } else {
      var i, j := Repetition(s);
      if j < |a| {
        assert a[i] == a[j];
      } else if i < |a| {
        assert b[j - |a|] in b && b[j - |a|] == a[i];
      } else {
        assert b[i - |a|] == b[j - |a|];
      }
    }
  }

  lemma NoRepeatsEnd<T>(s: seq<T>)
    requires s != []
    ensures var n := |s| - 1; NoRepeats(s) <==> NoRepeats(s[..n]) && s[n] !in s[..n]
  {
    var n := |s| - 1;
    NoRepeatsJoin(s[..n], [s[n]]);
    assert s == s[..n] + [s[n]];
  }

  /** A list of cases repeats one exactly when its list of values repeats one. */
  lemma {:induction false} CasesRepeat(algorithm: string, operations: seq<string>, values: seq<nat>)
    requires operations != [] && NoRepeats(operations)
    ensures NoRepeats(CasesOf(algorithm, operations, values)) <==> NoRepeats(values)
  {
    if values != [] {
      var n := |values| - 1;
      var before := CasesOf(algorithm, operations, values[..n]);
      var last := seq(|operations|, i requires 0 <= i < |operations| => CaseName(operations[i], algorithm, values[n]));
      CasesRepeat(algorithm, operations, values[..n]);
      NoRepeatsJoin(before, last);
      NoRepeatsEnd(values);
      assert NoRepeats(last);
      forall x | x in last
        ensures x in before <==> values[n] in values[..n]
      {
        CasesOfMembers(algorithm, operations, values[..n], x);
      }
      assert last[0] in last;
    }
  }

  /** The energy schedule repeats a case exactly when one of the two scaling lists repeats a value. */
  lemma ScheduleRepeats(p: Parameters)
    ensures NoRepeats(EnergySchedule(p)) <==> NoRepeats(p.attributeCounts) && NoRepeats(p.subscriberCounts)
  {
    var cpabe := CasesOf(CPABE_ATTRIBUTES, ["Encrypt", "Decrypt"], p.attributeCounts);
    var rsa := CasesOf(RSA_SUBSCRIBERS, ["Encrypt"], p.subscriberCounts);
    var fixedCase := CaseName("Decrypt", RSA_KEY_BITS, p.fixedRsaKeyBits);
    CasesRepeat(CPABE_ATTRIBUTES, ["Encrypt", "Decrypt"], p.attributeCounts);
    CasesRepeat(RSA_SUBSCRIBERS, ["Encrypt"], p.subscriberCounts);
    forall name | name in rsa
      ensures name !in cpabe
    {
      CasesOfMembers(CPABE_ATTRIBUTES, ["Encrypt", "Decrypt"], p.attributeCounts, name);
      CasesOfMembers(RSA_SUBSCRIBERS, ["Encrypt"], p.subscriberCounts, name);
    }
    CasesOfMembers(CPABE_ATTRIBUTES, ["Encrypt", "Decrypt"], p.attributeCounts, fixedCase);
    CasesOfMembers(RSA_SUBSCRIBERS, ["Encrypt"], p.subscriberCounts, fixedCase);
    hide CasesOf;
    NoRepeatsJoin(cpabe, rsa);
    NoRepeatsJoin(cpabe + rsa, [fixedCase]);
    assert NoRepeats([fixedCase]);
  }

  /** The operation printed is the operation of the identity. */
  predicate PlainOperations(schedule: seq<CaseName>) {
    forall i :: 0 <= i < |schedule| ==> OperationOf(schedule[i].operation) == schedule[i].operation
  }

  lemma EnergyIsPlain(p: Parameters)
    ensures PlainOperations(EnergySchedule(p))
  {
    forall name | name in EnergySchedule(p)
      ensures OperationOf(name.operation) == name.operation
    {
      CasesOfMembers(CPABE_ATTRIBUTES, ["Encrypt", "Decrypt"], p.attributeCounts, name);
      CasesOfMembers(RSA_SUBSCRIBERS, ["Encrypt"], p.subscriberCounts, name);
    }
  }

  lemma {:induction false} WindowIsScheduled(windows: seq<Window>, schedule: seq<CaseName>, runs: nat, i: nat)
    returns (name: CaseName)
    requires AreCases(windows, schedule, runs) && i < |windows|
    ensures name in schedule && windows[i].WorkloadWindow? && windows[i].identity == IdentityOf(CpabeRsa, name)
    decreases |schedule|
  {
    var n, before := |schedule| - 1, |windows| - runs;
    if i < before {
      name := WindowIsScheduled(windows[..before], schedule[..n], runs, i);
    } else {
      name := schedule[n];
      assert windows[before..][i - before] == windows[i];
    }
  }

  /** A schedule without repetition measures no run twice. */
  lemma {:induction false} CasesMeasuredOnce(windows: seq<Window>, schedule: seq<CaseName>, runs: nat)
    requires AreCases(windows, schedule, runs) && NoRepeats(schedule) && PlainOperations(schedule)
    ensures MeasuredOnce(windows)
    decreases |schedule|
  {
    if schedule != [] {
      var n, before := |schedule| - 1, |windows| - runs;
      CasesMeasuredOnce(windows[..before], schedule[..n], runs);
      forall i, j | 0 <= i < j < |windows|
        ensures !(windows[i].WorkloadWindow? && windows[j].WorkloadWindow?
                  && windows[i].identity == windows[j].identity && windows[i].run == windows[j].run)
      {
        if before <= j {
          assert windows[before..][j - before] == windows[j];
          if before <= i {
            assert windows[before..][i - before] == windows[i];
          } else {
            var name := WindowIsScheduled(windows[..before], schedule[..n], runs, i);
            assert name != schedule[n];
          }
        } else {
          assert windows[..before][i] == windows[i] && windows[..before][j] == windows[j];
        }
      }
    }
  }

  lemma FileMeasuredOnce(windows: seq<Window>, p: Parameters)
    requires IsEnergyFile(windows, p) && NoRepeats(p.attributeCounts) && NoRepeats(p.subscriberCounts)
    ensures MeasuredOnce(windows)
  {
    ScheduleRepeats(p);
    EnergyIsPlain(p);
    CasesMeasuredOnce(windows[p.runs..], EnergySchedule(p), p.runs);
    hide AreCases, EnergySchedule;
    forall i | 0 <= i < p.runs
      ensures windows[i].BaselineWindow?
    {
      assert windows[..p.runs][i] == windows[i];
    }
    forall i, j | p.runs <= i < j < |windows| && windows[i].WorkloadWindow? && windows[j].WorkloadWindow?
      ensures !(windows[i].identity == windows[j].identity && windows[i].run == windows[j].run)
    {
      assert windows[p.runs..][i - p.runs] == windows[i] && windows[p.runs..][j - p.runs] == windows[j];
    }
  }

  /** When neither scaling list repeats a value, the case of a run holds exactly that window's samples, and
      the flag stored from its first row is the window's. */
  lemma StoredFlagIsTheRuns(windows: seq<Window>, p: Parameters, i: nat)
    requires IsEnergyFile(windows, p) && NoRepeats(p.attributeCounts) && NoRepeats(p.subscriberCounts)
    requires i < |windows| && windows[i].WorkloadWindow?
    ensures var w := windows[i];
            var items := RunRows(FileRows(windows), w.identity, w.run);
            && |items| == |w.samples|
            && forall k :: 0 <= k < |items| ==> items[k] == (Flag(w.throttled), w.samples[k])
  {
    hide RunRows, FileRows, Matching, Flagged, IsEnergyFile;
    FileMeasuredOnce(windows, p);
    var w := windows[i];
    CaseIsItsWindows(windows, w.identity, w.run);
    MatchesOne(windows, i, w.identity, w.run);
    FlaggedAll(w, |w.samples|);
  }

  // ---- runs that are measured twice --------------------------------------------------------

  /** The windows of one case, all with one flag and one sample. */
  function CaseWindows(name: CaseName, runs: nat, throttled: bool, sample: EnergySample): seq<Window> {
    seq(runs, r requires 0 <= r => WorkloadWindow(IdentityOf(CpabeRsa, name), r + 1, throttled, [sample]))
  }

  /** The windows of a schedule of which only the case at position `hot` throttled. */
  function OneHot(schedule: seq<CaseName>, runs: nat, hot: nat, sample: EnergySample): seq<Window> {
    if schedule == [] then []
    else
      var n := |schedule| - 1;
      OneHot(schedule[..n], runs, hot, sample) + CaseWindows(schedule[n], runs, n == hot, sample)
  }

  lemma {:induction false} OneHotAreCases(schedule: seq<CaseName>, runs: nat, hot: nat, sample: EnergySample)
    ensures AreCases(OneHot(schedule, runs, hot, sample), schedule, runs)
    ensures Sampled(OneHot(schedule, runs, hot, sample))
  {
    if schedule != [] {
      var n := |schedule| - 1;
      OneHotAreCases(schedule[..n], runs, hot, sample);
      var before, last := OneHot(schedule[..n], runs, hot, sample), CaseWindows(schedule[n], runs, n == hot, sample);
      AnotherCase(before, schedule[..n], last, schedule[n], runs);
      SampledJoin(before, last);
      assert schedule[..n] + [schedule[n]] == schedule;
    }
  }

  lemma {:induction false} OneHotHolds(schedule: seq<CaseName>, runs: nat, hot: nat, sample: EnergySample, k: nat)
    returns (i: nat)
    requires k < |schedule| && runs > 0
    ensures i < |OneHot(schedule, runs, hot, sample)|
    ensures OneHot(schedule, runs, hot, sample)[i] ==
            WorkloadWindow(IdentityOf(CpabeRsa, schedule[k]), 1, k == hot, [sample])
    decreases |schedule|
  {
    var n := |schedule| - 1;
    if k == n {
      i := |OneHot(schedule[..n], runs, hot, sample)|;
    } else {
      i := OneHotHolds(schedule[..n], runs, hot, sample, k);
    }
  }

  function BaselineWindows(runs: nat, sample: EnergySample): seq<Window> {
    seq(runs, r requires 0 <= r => BaselineWindow(r + 1, [sample]))
  }

  /** An energy file in which only the case at position `hot` of the schedule throttled. */
  function HotFile(p: Parameters, hot: nat, sample: EnergySample): seq<Window> {
    BaselineWindows(p.runs, sample) + OneHot(EnergySchedule(p), p.runs, hot, sample)
  }

  lemma HotFileIsFile(p: Parameters, hot: nat, sample: EnergySample)
    ensures IsEnergyFile(HotFile(p, hot, sample), p) && Sampled(HotFile(p, hot, sample))
  {
    var baselines, cases := BaselineWindows(p.runs, sample), OneHot(EnergySchedule(p), p.runs, hot, sample);
    OneHotAreCases(EnergySchedule(p), p.runs, hot, sample);
    SampledJoin(baselines, cases);
    assert (baselines + cases)[..p.runs] == baselines && (baselines + cases)[p.runs..] == cases;
  }

  /** A case that is scheduled twice can throttle the second time only. */
  lemma RepeatedCaseMixes(p: Parameters, i: nat, j: nat, sample: EnergySample)
    requires p.runs > 0 && i < j < |EnergySchedule(p)| && EnergySchedule(p)[i] == EnergySchedule(p)[j]
    ensures var windows, id := HotFile(p, j, sample), IdentityOf(CpabeRsa, EnergySchedule(p)[j]);
            SomeWindow(windows, id, 1, true) && SomeWindow(windows, id, 1, false)
  {
    hide EnergySchedule, OneHot;
    var schedule, windows := EnergySchedule(p), HotFile(p, j, sample);
    var cold := OneHotHolds(schedule, p.runs, j, sample, i);
    var hot := OneHotHolds(schedule, p.runs, j, sample, j);
    assert windows[p.runs + cold] == OneHot(schedule, p.runs, j, sample)[cold];
    assert windows[p.runs + hot] == OneHot(schedule, p.runs, j, sample)[hot];
  }

  /** The rows of every case agree on the flag, so that the stored one is every window's. */
  ghost predicate FlagKept(windows: seq<Window>) {
    forall id, run, k :: 0 <= k < |RunRows(FileRows(windows), id, run)| ==>
      RunRows(FileRows(windows), id, run)[k].0 == RunRows(FileRows(windows), id, run)[0].0
  }

  /** Whatever throttles, every file of the parameters keeps the flags. */
  ghost predicate FlagAlwaysKept(p: Parameters) {
    forall windows :: IsEnergyFile(windows, p) && Sampled(windows) ==> FlagKept(windows)
  }

  lemma KeptWhenMeasuredOnce(windows: seq<Window>, id: Identity, run: nat)
    requires MeasuredOnce(windows)
    ensures !(SomeWindow(windows, id, run, true) && SomeWindow(windows, id, run, false))
  {
  }

  lemma KeptInFile(windows: seq<Window>, p: Parameters)
    requires IsEnergyFile(windows, p)
    requires p.runs == 0 || (NoRepeats(p.attributeCounts) && NoRepeats(p.subscriberCounts))
    ensures FlagKept(windows)
  {
    if p.runs == 0 {
      NoRunsNoWindows(windows[0..], EnergySchedule(p));
    } else {
      FileMeasuredOnce(windows, p);
    }
    hide RunRows, FileRows, IsEnergyFile;
    forall id, run, k | 0 <= k < |RunRows(FileRows(windows), id, run)|
      ensures RunRows(FileRows(windows), id, run)[k].0 == RunRows(FileRows(windows), id, run)[0].0
    {
      KeptWhenMeasuredOnce(windows, id, run);
      FlagKeptExactlyWhen(windows, id, run);
    }
  }

  /** The flags are kept in every energy file of the parameters exactly when nothing is measured or neither
      scaling list repeats a value. */
  lemma FlagAlwaysKeptExactlyWhen(p: Parameters)
    ensures FlagAlwaysKept(p) <==> p.runs == 0 || (NoRepeats(p.attributeCounts) && NoRepeats(p.subscriberCounts))
  {
    hide FlagKept, IsEnergyFile, Sampled, EnergySchedule, HotFile, NoRepeats;
    if p.runs == 0 || (NoRepeats(p.attributeCounts) && NoRepeats(p.subscriberCounts)) {
      forall windows | IsEnergyFile(windows, p) && Sampled(windows)
        ensures FlagKept(windows)
      {
        KeptInFile(windows, p);
      }
    } else {
      ScheduleRepeats(p);
      var i, j := Repetition(EnergySchedule(p));
      var sample := EnergySample(0.0, 0.0, 0.0, 0.0);
      HotFileIsFile(p, j, sample);
      RepeatedCaseMixes(p, i, j, sample);
      MixedIsNotKept(HotFile(p, j, sample), IdentityOf(CpabeRsa, EnergySchedule(p)[j]), 1);
    }
  }

  lemma MixedIsNotKept(windows: seq<Window>, id: Identity, run: nat)
    requires SomeWindow(windows, id, run, true) && SomeWindow(windows, id, run, false)
    ensures !FlagKept(windows)
  {
    hide RunRows, FileRows, SomeWindow;
    FlagKeptExactlyWhen(windows, id, run);
  }

  lemma MatchingAppend(windows: seq<Window>, w: Window, id: Identity, run: nat)
    ensures Matching(windows + [w], id, run) ==
            Matching(windows, id, run) + if Measures(w, id, run) then Flagged(w, |w.samples|) else []
  {
    assert (windows + [w])[..|windows|] == windows;
    assert Matching(windows, id, run) + [] == Matching(windows, id, run);
  }

  lemma OneWindow(windows: seq<Window>, schedule: seq<CaseName>, name: CaseName, throttled: bool, sample: EnergySample)
    returns (w: Window)
    requires AreCases(windows, schedule, 1)
    ensures w == WorkloadWindow(IdentityOf(CpabeRsa, name), 1, throttled, [sample])
    ensures AreCases(windows + [w], schedule + [name], 1)
  {
    w := WorkloadWindow(IdentityOf(CpabeRsa, name), 1, throttled, [sample]);
    AnotherCase(windows, schedule, [w], name, 1);
  }

  /** The schedule of one attribute count listed twice and no subscriber count. */
  lemma TwiceListed()
    ensures var encrypt, decrypt := CaseName("Encrypt", CPABE_ATTRIBUTES, 5), CaseName("Decrypt", CPABE_ATTRIBUTES, 5);
            EnergySchedule(Parameters(1, [5, 5], [], [2048], 2048)) ==
            [] + [encrypt] + [decrypt] + [encrypt] + [decrypt] + [CaseName("Decrypt", RSA_KEY_BITS, 2048)]
  {
    assert [5, 5][..1] == [5] && [5][..0] == [];
  }

  /** One run of an attribute count that is listed twice.  Only its second encryption throttled, and the case
      that is loaded mixes both and keeps the flag of the first. */
  lemma RepeatedValueKeepsFirstFlag(sample: EnergySample) returns (windows: seq<Window>)
    ensures IsEnergyFile(windows, Parameters(1, [5, 5], [], [2048], 2048)) && Sampled(windows)
    ensures RunRows(FileRows(windows), IdentityOf(CpabeRsa, CaseName("Encrypt", CPABE_ATTRIBUTES, 5)), 1) ==
            [(0.0, sample), (1.0, sample)]
  {
    hide AreCases, EnergySchedule, FileRows, RunRows, Matching;
    var encrypt, decrypt := CaseName("Encrypt", CPABE_ATTRIBUTES, 5), CaseName("Decrypt", CPABE_ATTRIBUTES, 5);
    var fixedCase := CaseName("Decrypt", RSA_KEY_BITS, 2048);
    var id := IdentityOf(CpabeRsa, encrypt);
    assert AreCases([], [], 1) by { NoneScheduled(); }
    var first := OneWindow([], [], encrypt, false, sample);
    var second := OneWindow([] + [first], [] + [encrypt], decrypt, false, sample);
    var third := OneWindow([] + [first] + [second], [] + [encrypt] + [decrypt], encrypt, true, sample);
    var fourth := OneWindow([] + [first] + [second] + [third], [] + [encrypt] + [decrypt] + [encrypt], decrypt, false,
                            sample);
    var cases := [] + [first] + [second] + [third] + [fourth];
    var fifth := OneWindow(cases, [] + [encrypt] + [decrypt] + [encrypt] + [decrypt], fixedCase, false, sample);
    TwiceListed();
    var baseline := BaselineWindow(1, [sample]);
    windows := [baseline] + (cases + [fifth]);
    assert windows[..1] == [baseline] && windows[1..] == cases + [fifth];
    assert windows == [] + [baseline] + [first] + [second] + [third] + [fourth] + [fifth];
    CaseIsItsWindows(windows, id, 1);
    FirstAndThird(baseline, first, second, third, fourth, fifth, id);
    FlaggedAll(first, 1);
    FlaggedAll(third, 1);
  }

  lemma FirstAndThird(baseline: Window, first: Window, second: Window, third: Window, fourth: Window, fifth: Window,
                      id: Identity)
    requires Measures(first, id, 1) && Measures(third, id, 1)
    requires !Measures(baseline, id, 1) && !Measures(second, id, 1)
    requires !Measures(fourth, id, 1) && !Measures(fifth, id, 1)
    ensures Matching([] + [baseline] + [first] + [second] + [third] + [fourth] + [fifth], id, 1) ==
            Flagged(first, |first.samples|) + Flagged(third, |third.samples|)
  {
    hide Matching, Measures, Flagged;
    assert Matching([], id, 1) == [] by { NoneMatching(id); }
    MatchingAppend([], baseline, id, 1);
    MatchingAppend([] + [baseline], first, id, 1);
    MatchingAppend([] + [baseline] + [first], second, id, 1);
    MatchingAppend([] + [baseline] + [first] + [second], third, id, 1);
    MatchingAppend([] + [baseline] + [first] + [second] + [third], fourth, id, 1);
    MatchingAppend([] + [baseline] + [first] + [second] + [third] + [fourth], fifth, id, 1);
  }

  lemma NoneScheduled()
    ensures AreCases([], [], 1)
  {
  }

  lemma NoneMatching(id: Identity)
    ensures Matching([], id, 1) == []
  {
  }
}
