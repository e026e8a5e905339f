/** The analysis loop of the CP-ABE/RSA report: every case looks up its aggregations in the loaded summary, and
    the statistics run on whatever was found. */
module CpabeRsaAnalysis {
  import opened Wrappers
  import opened Grouping
  import opened BenchmarkText
  import opened BenchmarkResults
  import opened TimingResults
  import opened MemoryResults
  import opened RunSummary
  import opened EnergySummary
  import opened Estimates
  import opened Statistics
  import opened RunStatistics
  import opened CpabeRsaSchedule
  import opened CpabeRsaReport

  // ---- the summary -------------------------------------------------------------------------

  /** The lists of the loaded summary that this report uses. */
  datatype Summary = Summary(
    timing: AggregationList<TimingCase>, memory: AggregationList<MemoryCase>, memoryBaselines: seq<MemoryCase>,
    energy: EnergyList, energyBaselines: BaselineList)

  type Samples = seq<Group<nat, (real, EnergySample)>>

  /** What the lists hold. */
  datatype Contents = Contents(
    timing: seq<Group<Identity, TimingCase>>, memory: seq<Group<Identity, MemoryCase>>,
    energy: EnergySummary.Grouped, energyBaselines: seq<Group<nat, EnergySample>>)

  ghost predicate Holds(s: Summary, g: Contents)
    reads s.timing, s.timing.aggregations, s.memory, s.memory.aggregations, s.energy, s.energy.Repr,
          s.energyBaselines, s.energyBaselines.cases
  {
    && s.timing.Shows(g.timing) && s.memory.Shows(g.memory)
    && s.energy.Valid() && s.energy.Shows(g.energy) && s.energyBaselines.Shows(g.energyBaselines)
  }

  /** What a list holds for an identity. */
  function Lookup<V>(groups: seq<Group<Identity, V>>, id: Identity): Option<seq<V>> {
    var i := Find(groups, id);
    if i == -1 then None else Some(groups[i].items)
  }

  ghost predicate IsLookup<Case>(found: Aggregation?<Case>, groups: seq<Group<Identity, Case>>, id: Identity)
    reads found
  {
    var held := Lookup(groups, id);
    (found == null <==> held.None?) && (found != null ==> found.identity == id && found.cases == held.value)
  }

  ghost predicate IsEnergyLookup(found: EnergyAggregation?, groups: EnergySummary.Grouped, id: Identity)
    reads found, if found == null then [] else found.cases
  {
    var held := Lookup(groups, id);
    (found == null <==> held.None?) && (found != null ==> found.Shows(Group(id, held.value)))
  }

  // ---- lookups -----------------------------------------------------------------------------

  /** One aggregation, or null, per parameter value. */
  method FindAll<Case>(list: AggregationList<Case>, c: ReportCase, values: seq<nat>,
                       ghost groups: seq<Group<Identity, Case>>)
    returns (found: seq<Aggregation?<Case>>)
    requires list.Shows(groups) && c.algorithm in PARAMETER_BY_ALGORITHM
    ensures |found| == |values|
    ensures forall k :: 0 <= k < |values| ==> IsLookup(found[k], groups, Demanded(c, values[k]))
  {
    found := [];
    for k := 0 to |values|
      invariant |found| == k
      invariant forall l :: 0 <= l < k ==> IsLookup(found[l], groups, Demanded(c, values[l]))
    {
      var aggregation := list.Find(Demanded(c, values[k]), groups);
      found := found + [aggregation];
    }
  }

  method FindAllEnergy(list: EnergyList, c: ReportCase, values: seq<nat>, ghost groups: EnergySummary.Grouped)
    returns (found: seq<EnergyAggregation?>)
    requires list.Valid() && list.Shows(groups) && c.algorithm in PARAMETER_BY_ALGORITHM
    ensures |found| == |values|
    ensures forall k :: 0 <= k < |values| ==> IsEnergyLookup(found[k], groups, Demanded(c, values[k]))
  {
    found := [];
    for k := 0 to |values|
      invariant |found| == k
      invariant forall l :: 0 <= l < k ==> IsEnergyLookup(found[l], groups, Demanded(c, values[l]))
    {
      var aggregation, at := list.FindEnergyAggregation(Demanded(c, values[k]));
      FoundAt(groups, Demanded(c, values[k]), at);
      found := found + [aggregation];
    }
  }

  // ---- when a case can be analyzed ---------------------------------------------------------

  ghost predicate Averages(cases: Option<seq<TimingCase>>, m: Measurement) {
    cases.Some? && cases.value != [] && AllMeasured(cases.value, m)
  }

  ghost predicate TimingAnswered(cases: Option<seq<TimingCase>>) {
    Averages(cases, NsPerOp) && AnyThrottled(FlagsOfTiming(cases.value)).Ok?
  }

  ghost predicate EnergyAnswered(held: Option<Samples>) {
    held.Some? && held.value != [] && forall k :: 0 <= k < |held.value| ==> held.value[k].items != []
  }

  ghost predicate MemoryAnswered(cases: Option<seq<MemoryCase>>) {
    cases.Some? && cases.value != []
  }

  ghost predicate BaselinesAnswered(baselines: seq<Group<nat, EnergySample>>) {
    baselines != [] && forall k :: 0 <= k < |baselines| ==> baselines[k].items != []
  }

  ghost predicate TimingsAnswered(p: Parameters, c: ReportCase, g: Contents)
    requires c.algorithm in PARAMETER_BY_ALGORITHM
  {
    forall v <- TimingValues(p, c.algorithm) :: TimingAnswered(Lookup(g.timing, Demanded(c, v)))
  }

  /** One of the timing aggregations that are looked up for the case has the identity of the energy
      aggregation that is looked up for `v`. */
  ghost predicate SomeTimingOf(p: Parameters, c: ReportCase, g: Contents, v: nat)
    requires c.algorithm in PARAMETER_BY_ALGORITHM
  {
    var values := TimingValues(p, c.algorithm);
    exists k :: 0 <= k < |values| && FindsTiming(c, g, values[k], Demanded(c, v))
  }

  ghost predicate FindsTiming(c: ReportCase, g: Contents, value: nat, id: Identity)
    requires c.algorithm in PARAMETER_BY_ALGORITHM
  {
    var i := Find(g.timing, Demanded(c, value));
    i >= 0 && g.timing[i].key == id
  }

  ghost predicate EnergiesAnswered(p: Parameters, c: ReportCase, g: Contents)
    requires c.algorithm in PARAMETER_BY_ALGORITHM
  {
    EnergyMemoryValues(p, c) != [] ==>
      && BaselinesAnswered(g.energyBaselines)
      && forall v <- EnergyMemoryValues(p, c) ::
           EnergyAnswered(Lookup(g.energy, Demanded(c, v))) && SomeTimingOf(p, c, g, v)
  }

  ghost predicate MemoriesAnswered(p: Parameters, c: ReportCase, g: Contents)
    requires c.algorithm in PARAMETER_BY_ALGORITHM
  {
    forall v <- EnergyMemoryValues(p, c) :: MemoryAnswered(Lookup(g.memory, Demanded(c, v)))
  }

  // ---- what is reported of a case ----------------------------------------------------------

  datatype EnergyResult = EnergyResult(estimates: seq<Estimate>, throttled: seq<bool>)

  /** The results of one case, one entry per parameter value: microseconds, microjoules, megabytes and bytes. */
  datatype CaseResult = CaseResult(
    latency: seq<Estimate>, throttled: seq<bool>, energy: Option<EnergyResult>, memory: Option<seq<Estimate>>,
    extra: map<Measurement, seq<Estimate>>)

  const MICROSECONDS := 1.0 / 1000.0
  const MICROJOULES := 1000000.0
  const MEGABYTES := 1.0 / 1048576.0

  function Times(e: Estimate, factor: real): Estimate {
    Estimate(e.mean * factor, e.interval * factor)
  }

  // What a reported estimate says in the unit it was measured in.

  ghost function InNanoseconds(latency: Estimate): Estimate {
    Estimate(latency.mean * 1000.0, latency.interval * 1000.0)
  }

  ghost function InJoules(energy: Estimate): Estimate {
    Estimate(energy.mean / 1000000.0, energy.interval / 1000000.0)
  }

  ghost function InBytes(memory: Estimate): Estimate {
    Estimate(memory.mean * 1048576.0, memory.interval * 1048576.0)
  }

  function Converted(estimates: seq<Estimate>, factor: real): (converted: seq<Estimate>)
    ensures |converted| == |estimates|
    ensures forall k :: 0 <= k < |estimates| ==> converted[k] == Times(estimates[k], factor)
  {
    seq(|estimates|, k requires 0 <= k < |estimates| => Times(estimates[k], factor))
  }

  /** The mean power of each run. */
  function RunPowers(held: Samples): (powers: seq<real>)
    requires EnergyAnswered(Some(held))
    ensures |powers| == |held|
    ensures forall k :: 0 <= k < |held| ==> powers[k] == Mean(Powers(SamplesOf(held[k].items)))
  {
    seq(|held|, k requires 0 <= k < |held| && EnergyAnswered(Some(held)) => Mean(Powers(SamplesOf(held[k].items))))
  }

  function IdlePower(baselines: seq<Group<nat, EnergySample>>): real
    requires BaselinesAnswered(baselines)
  {
    Mean(seq(|baselines|, k requires 0 <= k < |baselines| && BaselinesAnswered(baselines) =>
               Mean(Powers(baselines[k].items))))
  }

  /** The mean latency of a value in seconds. */
  function Seconds(cases: seq<TimingCase>): real
    requires Averages(Some(cases), NsPerOp)
  {
    Mean(Values(cases, NsPerOp)) / NS_PER_SECOND
  }

  ghost predicate LatencyReported(p: Parameters, c: ReportCase, g: Contents, library: Library, latency: seq<Estimate>,
                                  throttled: seq<bool>)
    requires c.algorithm in PARAMETER_BY_ALGORITHM
  {
    var values := TimingValues(p, c.algorithm);
    && |latency| == |throttled| == |values|
    && forall k :: 0 <= k < |values| ==>
         var cases := Lookup(g.timing, Demanded(c, values[k]));
         && TimingAnswered(cases)
         && IsEstimate(Values(cases.value, NsPerOp), library, InNanoseconds(latency[k]))
         && AnyThrottled(FlagsOfTiming(cases.value)) == Ok(throttled[k])
  }

  /** The energy of a value is that of its runs' mean powers less the idle power, times the mean latency of the
      timing runs of the same value. */
  ghost predicate EnergyOfValue(c: ReportCase, g: Contents, v: nat, library: Library, energy: Estimate)
    requires c.algorithm in PARAMETER_BY_ALGORITHM
  {
    var held, cases := Lookup(g.energy, Demanded(c, v)), Lookup(g.timing, Demanded(c, v));
    && BaselinesAnswered(g.energyBaselines) && EnergyAnswered(held) && Averages(cases, NsPerOp)
    && IsEstimate(Scaled(RunPowers(held.value), IdlePower(g.energyBaselines), Seconds(cases.value)), library, energy)
  }

  /** Its flag is set when that of one of its runs is. */
  ghost predicate FlagOfValue(c: ReportCase, g: Contents, v: nat, throttled: bool)
    requires c.algorithm in PARAMETER_BY_ALGORITHM
  {
    var held := Lookup(g.energy, Demanded(c, v));
    EnergyAnswered(held) && (throttled <==> exists i :: 0 <= i < |held.value| && held.value[i].items[0].0 > 0.0)
  }

  ghost predicate EnergyReported(p: Parameters, c: ReportCase, g: Contents, library: Library, energy: EnergyResult)
    requires c.algorithm in PARAMETER_BY_ALGORITHM
  {
    var values := EnergyMemoryValues(p, c);
    && |energy.estimates| == |energy.throttled| == |values|
    && forall k :: 0 <= k < |values| ==>
         && EnergyOfValue(c, g, values[k], library, InJoules(energy.estimates[k]))
         && FlagOfValue(c, g, values[k], energy.throttled[k])
  }

  ghost predicate MemoryReported(p: Parameters, c: ReportCase, g: Contents, library: Library, memory: seq<Estimate>)
    requires c.algorithm in PARAMETER_BY_ALGORITHM
  {
    var values := EnergyMemoryValues(p, c);
    && |memory| == |values|
    && forall k :: 0 <= k < |values| ==>
         var cases := Lookup(g.memory, Demanded(c, values[k]));
         MemoryAnswered(cases) && IsEstimate(Peaks(cases.value), library, InBytes(memory[k]))
  }

  ghost predicate CaseReported(p: Parameters, c: ReportCase, g: Contents, library: Library, result: CaseResult)
    requires c.algorithm in PARAMETER_BY_ALGORITHM
  {
    && LatencyReported(p, c, g, library, result.latency, result.throttled)
    && (result.energy.Some? <==> EnergyMemoryValues(p, c) != [])
    && (result.memory.Some? <==> EnergyMemoryValues(p, c) != [])
    && (result.energy.Some? ==> EnergyReported(p, c, g, library, result.energy.value))
    && (result.memory.Some? ==> MemoryReported(p, c, g, library, result.memory.value))
  }

  // ---- from the objects to the groups ------------------------------------------------------

  ghost predicate FoundTimings(p: Parameters, c: ReportCase, g: Contents, timings: seq<Aggregation?<TimingCase>>)
    requires c.algorithm in PARAMETER_BY_ALGORITHM
    reads timings
  {
    var values := TimingValues(p, c.algorithm);
    |timings| == |values| && forall k :: 0 <= k < |values| ==> IsLookup(timings[k], g.timing, Demanded(c, values[k]))
  }

  lemma AveragedIsAnswered(p: Parameters, c: ReportCase, g: Contents, timings: seq<Aggregation?<TimingCase>>,
                           m: Measurement)
    requires c.algorithm in PARAMETER_BY_ALGORITHM && FoundTimings(p, c, g, timings)
    ensures (forall i :: 0 <= i < |timings| ==> Averaged(timings[i], m)) <==>
            forall v <- TimingValues(p, c.algorithm) :: Averages(Lookup(g.timing, Demanded(c, v)), m)
  {
    hide TimingValues, Lookup, AllMeasured;
    var values := TimingValues(p, c.algorithm);
    forall k | 0 <= k < |values|
      ensures Averaged(timings[k], m) <==> Averages(Lookup(g.timing, Demanded(c, values[k])), m)
    {
      assert IsLookup(timings[k], g.timing, Demanded(c, values[k]));
    }
    if forall i :: 0 <= i < |timings| ==> Averaged(timings[i], m) {
      forall v | v in values
        ensures Averages(Lookup(g.timing, Demanded(c, v)), m)
      {
        var k :| 0 <= k < |values| && values[k] == v;
        assert Averaged(timings[k], m);
      }
    }
  }

  lemma {:induction false} FirstMatch(timings: seq<Aggregation?<TimingCase>>, identity: Identity, k: nat)
    requires null !in timings && k < |timings| && timings[k].identity == identity
    ensures HasMatch(timings, identity)
    decreases k
  {
    if j :| 0 <= j < k && timings[j].identity == identity {
      FirstMatch(timings, identity, j);
    } else {
      assert Matches(timings, identity, k);
    }
  }

  /** The search for the timing aggregation of an energy aggregation succeeds exactly when one was found. */
  lemma MatchIsFound(p: Parameters, c: ReportCase, g: Contents, timings: seq<Aggregation?<TimingCase>>, v: nat)
    requires c.algorithm in PARAMETER_BY_ALGORITHM && FoundTimings(p, c, g, timings) && null !in timings
    ensures HasMatch(timings, Demanded(c, v)) <==> SomeTimingOf(p, c, g, v)
  {
    var values, id := TimingValues(p, c.algorithm), Demanded(c, v);
    hide TimingValues;
    forall k | 0 <= k < |values|
      ensures timings[k].identity == id <==> FindsTiming(c, g, values[k], id)
    {
      assert timings[k] in timings;
      assert IsLookup(timings[k], g.timing, Demanded(c, values[k]));
    }
    if k :| 0 <= k < |values| && FindsTiming(c, g, values[k], id) {
      FirstMatch(timings, id, k);
    }
    if at :| Matches(timings, id, at) {
      assert FindsTiming(c, g, values[at], id);
    }
  }

  ghost predicate FoundEnergy(found: EnergyAggregation?, c: ReportCase, g: Contents, v: nat)
    requires c.algorithm in PARAMETER_BY_ALGORITHM
    reads found, if found == null then [] else found.cases
  {
    IsEnergyLookup(found, g.energy, Demanded(c, v))
  }

  lemma SampledIsAnswered(found: EnergyAggregation, c: ReportCase, g: Contents, v: nat)
    requires c.algorithm in PARAMETER_BY_ALGORITHM && FoundEnergy(found, c, g, v)
    ensures Lookup(g.energy, Demanded(c, v)).Some?
    ensures found.cases != [] && AllSampled(found.cases) <==> EnergyAnswered(Lookup(g.energy, Demanded(c, v)))
    ensures EnergyAnswered(Lookup(g.energy, Demanded(c, v))) ==>
              CasePowers(found.cases) == RunPowers(Lookup(g.energy, Demanded(c, v)).value)
  {
    hide Lookup, Mean, Powers, Demanded;
    var held := Lookup(g.energy, Demanded(c, v)).value;
    forall k | 0 <= k < |held|
      ensures found.cases[k].samples == SamplesOf(held[k].items)
      ensures found.cases[k].samples != [] <==> held[k].items != []
    {
      assert found.cases[k].Shows(held[k]);
    }
  }

  /** An energy can be computed exactly when its aggregation and that of its timing were found. */
  lemma DeterminedIsAnswered(p: Parameters, c: ReportCase, g: Contents, timings: seq<Aggregation?<TimingCase>>,
                             found: EnergyAggregation?, v: nat)
    requires c.algorithm in PARAMETER_BY_ALGORITHM && FoundTimings(p, c, g, timings) && FoundEnergy(found, c, g, v)
    requires forall i :: 0 <= i < |timings| ==> Averaged(timings[i], NsPerOp)
    ensures Determined(found, timings) <==>
            EnergyAnswered(Lookup(g.energy, Demanded(c, v))) && SomeTimingOf(p, c, g, v)
  {
    hide Lookup, Demanded, TimingValues, FoundTimings, HasMatch, SomeTimingOf, EnergyAnswered;
    if found != null {
      SampledIsAnswered(found, c, g, v);
      MatchIsFound(p, c, g, timings, v);
      assert found.identity == Demanded(c, v);
      forall at | Matches(timings, found.identity, at)
        ensures Averaged(timings[at], NsPerOp)
      {
      }
    } else {
      assert !EnergyAnswered(Lookup(g.energy, Demanded(c, v))) by { NoneAnswers(c, g, v); }
    }
  }

  lemma NoneAnswers(c: ReportCase, g: Contents, v: nat)
    requires c.algorithm in PARAMETER_BY_ALGORITHM && Lookup(g.energy, Demanded(c, v)).None?
    ensures !EnergyAnswered(Lookup(g.energy, Demanded(c, v)))
  {
  }

  /** The energy computed from the objects is the one of the groups. */
  lemma EnergyOfGroups(p: Parameters, c: ReportCase, g: Contents, timings: seq<Aggregation?<TimingCase>>,
                       found: EnergyAggregation, v: nat, idlePower: real, at: int, library: Library, energy: Estimate)
    requires c.algorithm in PARAMETER_BY_ALGORITHM && FoundTimings(p, c, g, timings) && FoundEnergy(found, c, g, v)
    requires EnergyIs(found, idlePower, timings, at, library, energy)
    requires BaselinesAnswered(g.energyBaselines) && idlePower == IdlePower(g.energyBaselines)
    ensures EnergyOfValue(c, g, v, library, energy)
  {
    hide Lookup, Scaled, IsEstimate, Mean, TimingValues;
    SampledIsAnswered(found, c, g, v);
    assert IsLookup(timings[at], g.timing, Demanded(c, TimingValues(p, c.algorithm)[at]));
    assert found.identity == Demanded(c, v) == Demanded(c, TimingValues(p, c.algorithm)[at]);
  }

  lemma FlagsOfRuns(found: EnergyAggregation, c: ReportCase, g: Contents, v: nat)
    requires c.algorithm in PARAMETER_BY_ALGORITHM && FoundEnergy(found, c, g, v)
    requires EnergyAnswered(Lookup(g.energy, Demanded(c, v)))
    ensures var any := AnyThrottled(FlagsOfEnergy(found.cases)); any.Ok? && FlagOfValue(c, g, v, any.value)
  {
    hide Lookup, Demanded, AnyThrottled;
    var held, flags := Lookup(g.energy, Demanded(c, v)).value, FlagsOfEnergy(found.cases);
    forall k | 0 <= k < |held|
      ensures flags[k] == Some(held[k].items[0].0)
    {
      assert found.cases[k].Shows(held[k]);
    }
    AnyThrottledIsSome(flags);
    assert (exists i :: 0 <= i < |flags| && flags[i].value > 0.0) <==>
           (exists i :: 0 <= i < |held| && held[i].items[0].0 > 0.0) by {
      if i :| 0 <= i < |flags| && flags[i].value > 0.0 {
        assert held[i].items[0].0 > 0.0;
      }
      if i :| 0 <= i < |held| && held[i].items[0].0 > 0.0 {
        assert flags[i].value > 0.0;
      }
    }
  }

  lemma BaselinesOfGroups(list: BaselineList, baselines: seq<Group<nat, EnergySample>>)
    requires list.Shows(baselines)
    ensures list.cases != [] && AllSampled(list.cases) <==> BaselinesAnswered(baselines)
    ensures BaselinesAnswered(baselines) ==> Mean(CasePowers(list.cases)) == IdlePower(baselines)
  {
    hide Mean, Powers;
    forall k | 0 <= k < |baselines|
      ensures list.cases[k].samples == baselines[k].items
    {
    }
    if BaselinesAnswered(baselines) {
      assert CasePowers(list.cases) ==
             seq(|baselines|, k requires 0 <= k < |baselines| && BaselinesAnswered(baselines) =>
                   Mean(Powers(baselines[k].items)));
    }
  }

  // ---- one case ----------------------------------------------------------------------------

  /** The latency part of a case. */
  method AnalyzeLatency(timings: seq<Aggregation?<TimingCase>>, library: Library, ghost p: Parameters,
                        ghost c: ReportCase, ghost g: Contents)
    returns (r: Result<(seq<Estimate>, seq<bool>), Failure>)
    requires c.algorithm in PARAMETER_BY_ALGORITHM && FoundTimings(p, c, g, timings)
    ensures r.Ok? <==> TimingsAnswered(p, c, g)
    ensures r.Ok? ==> LatencyReported(p, c, g, library, r.value.0, r.value.1)
    ensures r.Ok? ==> forall i :: 0 <= i < |timings| ==> Averaged(timings[i], NsPerOp)
  {
    AveragedIsAnswered(p, c, g, timings, NsPerOp);
    hide TimingValues, Lookup, AllMeasured, IsEstimate;
    ghost var values := TimingValues(p, c.algorithm);
    var latency := TimingStatistics(timings, NsPerOp, library);
    if latency.Err? {
      return Err(latency.error);
    }
    forall k | 0 <= k < |values|
      ensures Averaged(timings[k], NsPerOp) && values[k] in values
      ensures Lookup(g.timing, Demanded(c, values[k])) == Some(timings[k].cases)
    {
      assert IsLookup(timings[k], g.timing, Demanded(c, values[k]));
    }
    var found: seq<Aggregation<TimingCase>> := timings;
    var throttled := CollectTimingThrottleFlags(found);
    if throttled.Err? {
      return Err(throttled.error);
    }
    r := Ok((Converted(latency.value, MICROSECONDS), throttled.value));
  }

  /** The energy part of a case that has energy aggregations. */
  method AnalyzeEnergy(energies: seq<EnergyAggregation?>, baselines: BaselineList,
                       timings: seq<Aggregation?<TimingCase>>, library: Library, ghost p: Parameters,
                       ghost c: ReportCase, ghost g: Contents)
    returns (r: Result<EnergyResult, Failure>)
    requires c.algorithm in PARAMETER_BY_ALGORITHM && FoundTimings(p, c, g, timings)
    requires forall i :: 0 <= i < |timings| ==> Averaged(timings[i], NsPerOp)
    requires |energies| == |EnergyMemoryValues(p, c)| && energies != []
    requires forall k :: 0 <= k < |energies| ==> FoundEnergy(energies[k], c, g, EnergyMemoryValues(p, c)[k])
    requires baselines.Shows(g.energyBaselines)
    ensures r.Ok? <==> EnergiesAnswered(p, c, g)
    ensures r.Ok? ==> EnergyReported(p, c, g, library, r.value)
  {
    hide TimingValues, Lookup, EnergyMemoryValues, IsEstimate, Demanded, SomeTimingOf, FoundTimings, EnergyIs,
         Determined, CasePowers, Mean, EnergyAnswered, BaselinesAnswered, FoundEnergy, BaselineList.Shows, IdlePower,
         RunPowers, Scaled, Averaged, AllSampled, FlagsOfEnergy, AnyThrottled, EnergyOfValue, FlagOfValue;
    ghost var values := EnergyMemoryValues(p, c);
    BaselinesOfGroups(baselines, g.energyBaselines);
    forall k | 0 <= k < |values|
      ensures Determined(energies[k], timings) <==>
              EnergyAnswered(Lookup(g.energy, Demanded(c, values[k]))) && SomeTimingOf(p, c, g, values[k])
    {
      DeterminedIsAnswered(p, c, g, timings, energies[k], values[k]);
    }
    var estimates, at := EnergyStatistics(energies, baselines.cases, timings, library);
    if estimates.Err? {
      return Err(estimates.error);
    }
    forall k | 0 <= k < |values|
      ensures EnergyOfValue(c, g, values[k], library, estimates.value[k])
      ensures var any := AnyThrottled(FlagsOfEnergy(energies[k].cases));
              any.Ok? && FlagOfValue(c, g, values[k], any.value)
    {
      EnergyOfGroups(p, c, g, timings, energies[k], values[k], IdlePower(g.energyBaselines), at[k], library,
                     estimates.value[k]);
      FlagsOfRuns(energies[k], c, g, values[k]);
    }
    var found: seq<EnergyAggregation> := energies;
    var throttled := CollectEnergyThrottleFlags(found);
    var energies' := Converted(estimates.value, MICROJOULES);
    forall k | 0 <= k < |values|
      ensures InJoules(energies'[k]) == estimates.value[k]
    {
    }
    r := match throttled case Ok(flags) => Ok(EnergyResult(energies', flags)) case Err(error) => Err(error);
  }

  /** The memory part of a case. */
  method AnalyzeMemory(memories: seq<Aggregation?<MemoryCase>>, library: Library, ghost p: Parameters,
                       ghost c: ReportCase, ghost g: Contents)
    returns (r: Result<seq<Estimate>, Failure>)
    requires c.algorithm in PARAMETER_BY_ALGORITHM && |memories| == |EnergyMemoryValues(p, c)|
    requires forall k :: 0 <= k < |memories| ==>
               IsLookup(memories[k], g.memory, Demanded(c, EnergyMemoryValues(p, c)[k]))
    ensures r.Ok? <==> MemoriesAnswered(p, c, g)
    ensures r.Ok? ==> MemoryReported(p, c, g, library, r.value)
  {
    hide EnergyMemoryValues, Lookup, IsEstimate, Demanded;
    ghost var values := EnergyMemoryValues(p, c);
    var estimates := MemoryStatistics(memories, library);
    forall k | 0 <= k < |values|
      ensures memories[k] != null && memories[k].cases != [] <==>
              MemoryAnswered(Lookup(g.memory, Demanded(c, values[k])))
      ensures values[k] in values
    {
      assert IsLookup(memories[k], g.memory, Demanded(c, values[k]));
    }
    if estimates.Err? {
      return Err(estimates.error);
    }
    forall v | v in values
      ensures MemoryAnswered(Lookup(g.memory, Demanded(c, v)))
    {
      var k :| 0 <= k < |values| && values[k] == v;
    }
    forall k | 0 <= k < |values|
      ensures Lookup(g.memory, Demanded(c, values[k])) == Some(memories[k].cases)
    {
      assert IsLookup(memories[k], g.memory, Demanded(c, values[k]));
    }
    r := Ok(Converted(estimates.value, MEGABYTES));
  }

  /** The latency, energy and memory results of one case, each from the aggregations found for it. */
  method AnalyzeCase(timings: seq<Aggregation?<TimingCase>>, energies: seq<EnergyAggregation?>,
                     memories: seq<Aggregation?<MemoryCase>>, baselines: BaselineList, library: Library,
                     ghost p: Parameters, ghost c: ReportCase, ghost g: Contents)
    returns (r: Result<CaseResult, Failure>)
    requires c.algorithm in PARAMETER_BY_ALGORITHM && FoundTimings(p, c, g, timings)
    requires |energies| == |memories| == |EnergyMemoryValues(p, c)|
    requires forall k :: 0 <= k < |energies| ==> FoundEnergy(energies[k], c, g, EnergyMemoryValues(p, c)[k])
    requires forall k :: 0 <= k < |memories| ==>
               IsLookup(memories[k], g.memory, Demanded(c, EnergyMemoryValues(p, c)[k]))
    requires baselines.Shows(g.energyBaselines)
    ensures r.Ok? <==> TimingsAnswered(p, c, g) && EnergiesAnswered(p, c, g) && MemoriesAnswered(p, c, g)
    ensures r.Ok? ==> CaseReported(p, c, g, library, r.value) && r.value.extra == map[]
  {
    hide TimingsAnswered, MemoryReported, EnergyReported, LatencyReported, BaselineList.Shows, EnergyMemoryValues,
         FoundTimings, FoundEnergy, IsLookup, TimingValues;
    var latency := AnalyzeLatency(timings, library, p, c, g);
    if latency.Err? {
      return Err(latency.error);
    }
    var energy, memory := None, None;
    if energies != [] {
      var result := AnalyzeEnergy(energies, baselines, timings, library, p, c, g);
      if result.Err? {
        return Err(result.error);
      }
      energy := Some(result.value);
    }
    if memories != [] {
      var result := AnalyzeMemory(memories, library, p, c, g);
      if result.Err? {
        return Err(result.error);
      }
      memory := Some(result.value);
    }
    r := Ok(CaseResult(latency.value.0, latency.value.1, energy, memory, map[]));
  }

  // ---- all cases ---------------------------------------------------------------------------

  /** Every measurement the case averages besides latency is there. */
  ghost predicate ExtrasAnswered(p: Parameters, c: ReportCase, g: Contents)
    requires c.algorithm in PARAMETER_BY_ALGORITHM
  {
    forall m <- ExtraMeasurements(c) :: ExtraAnswered(p, c, g, m)
  }

  ghost predicate ExtraAnswered(p: Parameters, c: ReportCase, g: Contents, m: Measurement)
    requires c.algorithm in PARAMETER_BY_ALGORITHM
  {
    forall v <- TimingValues(p, c.algorithm) :: Averages(Lookup(g.timing, Demanded(c, v)), m)
  }

  ghost predicate ExtraReported(p: Parameters, c: ReportCase, g: Contents, library: Library, m: Measurement,
                                estimates: seq<Estimate>)
    requires c.algorithm in PARAMETER_BY_ALGORITHM
  {
    var values := TimingValues(p, c.algorithm);
    && |estimates| == |values|
    && forall k :: 0 <= k < |values| ==>
         var cases := Lookup(g.timing, Demanded(c, values[k]));
         Averages(cases, m) && IsEstimate(Values(cases.value, m), library, estimates[k])
  }

  /** The estimates of one more measurement. */
  method AddTimingMeasurement(result: CaseResult, timings: seq<Aggregation?<TimingCase>>, m: Measurement,
                              library: Library, ghost p: Parameters, ghost c: ReportCase, ghost g: Contents)
    returns (r: Result<CaseResult, Failure>)
    requires c.algorithm in PARAMETER_BY_ALGORITHM && FoundTimings(p, c, g, timings)
    ensures r.Ok? <==> ExtraAnswered(p, c, g, m)
    ensures r.Ok? ==> m in r.value.extra && ExtraReported(p, c, g, library, m, r.value.extra[m])
    ensures r.Ok? ==> r.value == result.(extra := result.extra[m := r.value.extra[m]])
  {
    AveragedIsAnswered(p, c, g, timings, m);
    hide TimingValues, Lookup, AllMeasured, IsEstimate;
    var estimates := TimingStatistics(timings, m, library);
    if estimates.Err? {
      return Err(estimates.error);
    }
    ghost var values := TimingValues(p, c.algorithm);
    forall k | 0 <= k < |values|
      ensures Averaged(timings[k], m)
      ensures Lookup(g.timing, Demanded(c, values[k])) == Some(timings[k].cases)
    {
      assert IsLookup(timings[k], g.timing, Demanded(c, values[k]));
    }
    r := Ok(result.(extra := result.extra[m := estimates.value]));
  }

  /** All the report wants to know of a case can be answered from the summary. */
  ghost predicate CaseAnswered(p: Parameters, c: ReportCase, g: Contents)
    requires c.algorithm in PARAMETER_BY_ALGORITHM
  {
    TimingsAnswered(p, c, g) && EnergiesAnswered(p, c, g) && MemoriesAnswered(p, c, g) && ExtrasAnswered(p, c, g)
  }

  ghost predicate FullyReported(p: Parameters, c: ReportCase, g: Contents, library: Library, result: CaseResult)
    requires c.algorithm in PARAMETER_BY_ALGORITHM
  {
    && CaseReported(p, c, g, library, result)
    && result.extra.Keys == ExtraMeasurements(c)
    && forall m <- result.extra :: ExtraReported(p, c, g, library, m, result.extra[m])
  }

  const CPABE_ENCRYPT := ReportCase(CPABE_ATTRIBUTES, "Encrypt")
  const CPABE_DECRYPT := ReportCase(CPABE_ATTRIBUTES, "Decrypt")
  const SUBSCRIBER_ENCRYPT := ReportCase(RSA_SUBSCRIBERS, "Encrypt")
  const RSA_ENCRYPT := ReportCase(RSA_KEY_BITS, "Encrypt")
  const RSA_DECRYPT := ReportCase(RSA_KEY_BITS, "Decrypt")

  /** The extra measurements of a case, in the report's order. */
  method AddExtras(result: CaseResult, timings: seq<Aggregation?<TimingCase>>, library: Library, c: ReportCase,
                   ghost p: Parameters, ghost g: Contents)
    returns (r: Result<CaseResult, Failure>)
    requires c in CASE_ORDER && c.algorithm in PARAMETER_BY_ALGORITHM && FoundTimings(p, c, g, timings)
    requires CaseReported(p, c, g, library, result) && result.extra == map[]
    ensures r.Ok? <==> ExtrasAnswered(p, c, g)
    ensures r.Ok? ==> FullyReported(p, c, g, library, r.value)
  {
    InCaseOrder(c);
    hide CaseReported, ExtraReported, ExtraAnswered, FoundTimings, TimingValues;
    assert CaseReported(p, c, g, library, result);
    r := Ok(result);
    if c in {CPABE_ENCRYPT, SUBSCRIBER_ENCRYPT, RSA_ENCRYPT} {
      r := AddTimingMeasurement(r.value, timings, CiphertextBytes, library, p, c, g);
    }
    if r.Ok? && c == SUBSCRIBER_ENCRYPT {
      r := AddTimingMeasurement(r.value, timings, TotalCiphertextBytes, library, p, c, g);
    }
    if r.Ok? && c == CPABE_DECRYPT {
      r := AddTimingMeasurement(r.value, timings, StoredKeyBytes, library, p, c, g);
    }
    if r.Ok? {
      SameCase(p, c, g, library, result, r.value);
    }
  }

  /** The extra measurements are apart from the rest of a result. */
  lemma SameCase(p: Parameters, c: ReportCase, g: Contents, library: Library, a: CaseResult, b: CaseResult)
    requires c.algorithm in PARAMETER_BY_ALGORITHM && CaseReported(p, c, g, library, a) && b == a.(extra := b.extra)
    ensures CaseReported(p, c, g, library, b)
  {
    hide LatencyReported, EnergyReported, MemoryReported, EnergyMemoryValues;
  }

  /** One turn of the loop: the lookups of a case and its analysis. */
  method AnalyzeScheduled(s: Summary, p: Parameters, c: ReportCase, library: Library, ghost g: Contents)
    returns (r: Result<CaseResult, Failure>)
    requires Holds(s, g) && c in CASE_ORDER && c.algorithm in PARAMETER_BY_ALGORITHM
    ensures r.Ok? <==> CaseAnswered(p, c, g)
    ensures r.Ok? ==> FullyReported(p, c, g, library, r.value)
  {
    hide TimingValues, EnergyMemoryValues, EnergyList.Valid, EnergyList.Shows, AggregationList.Shows,
         BaselineList.Shows, IsLookup, TimingsAnswered, EnergiesAnswered, MemoriesAnswered, ExtrasAnswered, CaseReported, FullyReported;
    var parameterValues := TimingValues(p, c.algorithm);
    var timings := FindAll(s.timing, c, parameterValues, g.timing);
    var energyMemoryValues := EnergyMemoryValues(p, c);
    var energies := FindAllEnergy(s.energy, c, energyMemoryValues, g.energy);
    var memories := FindAll(s.memory, c, energyMemoryValues, g.memory);
    r := AnalyzeCase(timings, energies, memories, s.energyBaselines, library, p, c, g);
    if r.Ok? {
      r := AddExtras(r.value, timings, library, c, p, g);
    }
  }

  ghost predicate AllAnswered(p: Parameters, g: Contents, n: nat)
    requires n <= |CASE_ORDER|
  {
    forall i :: 0 <= i < n ==> CASE_ORDER[i].algorithm in PARAMETER_BY_ALGORITHM && CaseAnswered(p, CASE_ORDER[i], g)
  }

  ghost predicate AllReported(p: Parameters, g: Contents, library: Library, results: map<ReportCase, CaseResult>, n: nat)
    requires n <= |CASE_ORDER|
  {
    forall i :: 0 <= i < n ==>
         && CASE_ORDER[i] in results && CASE_ORDER[i].algorithm in PARAMETER_BY_ALGORITHM
         && FullyReported(p, CASE_ORDER[i], g, library, results[CASE_ORDER[i]])
  }

  lemma CaseOrderIsDistinct(i: nat, j: nat)
    requires i < j < |CASE_ORDER|
    ensures CASE_ORDER[i] != CASE_ORDER[j]
  {
  }

  lemma NoneReported(p: Parameters, g: Contents, library: Library)
    ensures AllReported(p, g, library, map[], 0)
  {
  }

  lemma NextReported(p: Parameters, g: Contents, library: Library, results: map<ReportCase, CaseResult>, n: nat,
                     result: CaseResult)
    requires n < |CASE_ORDER| && CASE_ORDER[n].algorithm in PARAMETER_BY_ALGORITHM
    requires AllReported(p, g, library, results, n) && FullyReported(p, CASE_ORDER[n], g, library, result)
    ensures AllReported(p, g, library, results[CASE_ORDER[n] := result], n + 1)
  {
    hide FullyReported;
    forall j | 0 <= j < n
      ensures CASE_ORDER[j] != CASE_ORDER[n]
    {
      CaseOrderIsDistinct(j, n);
    }
    hide CASE_ORDER;
  }

  /** The loop over the cases. */
  method AnalyzeCases(s: Summary, p: Parameters, library: Library, ghost g: Contents)
    returns (r: Result<map<ReportCase, CaseResult>, Failure>)
    requires Holds(s, g)
    ensures r.Ok? <==> AllAnswered(p, g, |CASE_ORDER|)
    ensures r.Ok? ==> AllReported(p, g, library, r.value, |CASE_ORDER|)
  {
    hide CaseAnswered, FullyReported, AllReported, Holds;
    assert AllReported(p, g, library, map[], 0) by { NoneReported(p, g, library); }
    var results: map<ReportCase, CaseResult> := map[];
    for i := 0 to |CASE_ORDER|
      invariant Holds(s, g)
      invariant AllAnswered(p, g, i) && AllReported(p, g, library, results, i)
    {
      var c := CASE_ORDER[i];
      CaseNames(c);
      var result := AnalyzeScheduled(s, p, c, library, g);
      if result.Err? {
        return Err(result.error);
      }
      NextReported(p, g, library, results, i, result.value);
      results := results[c := result.value];
    }
    r := Ok(results);
  }

  // ---- the report --------------------------------------------------------------------------

  /** Python's list.index. */
  method IndexOf(values: seq<nat>, v: nat) returns (r: Result<nat, Failure>)
    ensures r.Ok? <==> v in values
    ensures r.Ok? ==> r.value < |values| && values[r.value] == v && v !in values[..r.value]
    ensures r.Err? ==> r.error == ValueError
  {
    for i := 0 to |values|
      invariant v !in values[..i]
    {
      if values[i] == v {
        return Ok(i);
      }
    }
    return Err(ValueError);
  }

  /** The figures of the fixed RSA key, and the first and last results of the scaling lists the report compares
      them with. */
  datatype Headline = Headline(
    fixedLatency: Estimate, fixedThrottled: bool, fixedEncryptLatency: Estimate,
    fixedEnergy: Estimate, fixedEnergyThrottled: bool, fixedMemory: Estimate,
    bytesPerSubscriber: Estimate, ciphertextLow: Estimate, ciphertextHigh: Estimate,
    encryptLow: Estimate, encryptHigh: Estimate, decryptLow: Estimate, decryptHigh: Estimate)

  datatype Report = Report(cases: map<ReportCase, CaseResult>, baselineMemory: Estimate, headline: Headline)

  /** The results of the five cases have as many entries as their lists of values. */
  predicate Shaped(p: Parameters, cases: map<ReportCase, CaseResult>) {
    && {CPABE_ENCRYPT, CPABE_DECRYPT, SUBSCRIBER_ENCRYPT, RSA_ENCRYPT, RSA_DECRYPT} <= cases.Keys
    && |cases[CPABE_ENCRYPT].latency| == |cases[CPABE_DECRYPT].latency| == |p.attributeCounts|
    && |cases[RSA_ENCRYPT].latency| == |cases[RSA_DECRYPT].latency| == |cases[RSA_DECRYPT].throttled| == |p.rsaKeyBits|
    && CiphertextBytes in cases[CPABE_ENCRYPT].extra
    && |cases[CPABE_ENCRYPT].extra[CiphertextBytes]| == |p.attributeCounts|
    && CiphertextBytes in cases[SUBSCRIBER_ENCRYPT].extra
    && |cases[SUBSCRIBER_ENCRYPT].extra[CiphertextBytes]| == |p.subscriberCounts|
    && cases[RSA_DECRYPT].energy.Some? && |cases[RSA_DECRYPT].energy.value.estimates| == 1
    && |cases[RSA_DECRYPT].energy.value.throttled| == 1
    && cases[RSA_DECRYPT].memory.Some? && |cases[RSA_DECRYPT].memory.value| == 1
  }

  lemma ShapeOfCase(p: Parameters, g: Contents, library: Library, cases: map<ReportCase, CaseResult>, c: ReportCase)
    requires AllReported(p, g, library, cases, |CASE_ORDER|) && c in CASE_ORDER
    ensures c in cases && c.algorithm in PARAMETER_BY_ALGORITHM
    ensures |cases[c].latency| == |cases[c].throttled| == |TimingValues(p, c.algorithm)|
    ensures c.operation == "Encrypt" ==> CiphertextBytes in cases[c].extra
    ensures CiphertextBytes in cases[c].extra ==>
              |cases[c].extra[CiphertextBytes]| == |TimingValues(p, c.algorithm)|
    ensures EnergyMemoryValues(p, c) != [] ==>
              && cases[c].energy.Some? && cases[c].memory.Some?
              && |cases[c].energy.value.estimates| == |cases[c].energy.value.throttled| == |cases[c].memory.value|
              && |cases[c].memory.value| == |EnergyMemoryValues(p, c)|
  {
    hide TimingValues, EnergyMemoryValues;
    var i :| 0 <= i < |CASE_ORDER| && CASE_ORDER[i] == c;
    assert FullyReported(p, c, g, library, cases[c]);
  }

  lemma ReportedIsShaped(p: Parameters, g: Contents, library: Library, cases: map<ReportCase, CaseResult>)
    requires AllReported(p, g, library, cases, |CASE_ORDER|)
    ensures Shaped(p, cases)
  {
    hide AllReported;
    InCaseOrder(CPABE_ENCRYPT);
    InCaseOrder(CPABE_DECRYPT);
    InCaseOrder(SUBSCRIBER_ENCRYPT);
    InCaseOrder(RSA_ENCRYPT);
    InCaseOrder(RSA_DECRYPT);
    ShapeOfCase(p, g, library, cases, CPABE_ENCRYPT);
    ShapeOfCase(p, g, library, cases, CPABE_DECRYPT);
    ShapeOfCase(p, g, library, cases, SUBSCRIBER_ENCRYPT);
    ShapeOfCase(p, g, library, cases, RSA_ENCRYPT);
    ShapeOfCase(p, g, library, cases, RSA_DECRYPT);
  }

  /** The figures of the fixed key are those of its own aggregations. */
  ghost predicate FixedReported(p: Parameters, g: Contents, library: Library, h: Headline) {
    var id := Identity(RSA_KEY_BITS, "Decrypt", "rsa_key_bits", p.fixedRsaKeyBits);
    var cases, peaks := Lookup(g.timing, id), Lookup(g.memory, id);
    && TimingAnswered(cases) && IsEstimate(Values(cases.value, NsPerOp), library, InNanoseconds(h.fixedLatency))
    && AnyThrottled(FlagsOfTiming(cases.value)) == Ok(h.fixedThrottled)
    && EnergyOfValue(RSA_DECRYPT, g, p.fixedRsaKeyBits, library, InJoules(h.fixedEnergy))
    && FlagOfValue(RSA_DECRYPT, g, p.fixedRsaKeyBits, h.fixedEnergyThrottled)
    && MemoryAnswered(peaks) && IsEstimate(Peaks(peaks.value), library, InBytes(h.fixedMemory))
  }

  lemma FixedIsReported(p: Parameters, g: Contents, library: Library, cases: map<ReportCase, CaseResult>, k: nat,
                        h: Headline)
    requires AllReported(p, g, library, cases, |CASE_ORDER|) && Shaped(p, cases)
    requires k < |p.rsaKeyBits| && p.rsaKeyBits[k] == p.fixedRsaKeyBits
    requires h.fixedLatency == cases[RSA_DECRYPT].latency[k] && h.fixedThrottled == cases[RSA_DECRYPT].throttled[k]
    requires h.fixedEnergy == cases[RSA_DECRYPT].energy.value.estimates[0]
    requires h.fixedEnergyThrottled == cases[RSA_DECRYPT].energy.value.throttled[0]
    requires h.fixedMemory == cases[RSA_DECRYPT].memory.value[0]
    ensures FixedReported(p, g, library, h)
  {
    hide Shaped, EnergyOfValue, FlagOfValue, Lookup, TimingAnswered, IsEstimate, AnyThrottled;
    assert CASE_ORDER[4] == RSA_DECRYPT;
    assert FullyReported(p, RSA_DECRYPT, g, library, cases[RSA_DECRYPT]);
    FixedIsAsked(p);
    assert EnergyMemoryValues(p, RSA_DECRYPT)[0] == p.fixedRsaKeyBits;
  }

  /** The ends are the first and the last results of the scaling lists; the fixed key's own encryption is at the
      place of its decryption. */
  ghost predicate EndsReported(p: Parameters, cases: map<ReportCase, CaseResult>, h: Headline) {
    && Shaped(p, cases) && p.attributeCounts != [] && p.subscriberCounts != []
    && var last := |p.attributeCounts| - 1;
       && h.bytesPerSubscriber == cases[SUBSCRIBER_ENCRYPT].extra[CiphertextBytes][0]
       && h.ciphertextLow == cases[CPABE_ENCRYPT].extra[CiphertextBytes][0]
       && h.ciphertextHigh == cases[CPABE_ENCRYPT].extra[CiphertextBytes][last]
       && h.encryptLow == cases[CPABE_ENCRYPT].latency[0] && h.encryptHigh == cases[CPABE_ENCRYPT].latency[last]
       && h.decryptLow == cases[CPABE_DECRYPT].latency[0] && h.decryptHigh == cases[CPABE_DECRYPT].latency[last]
       && exists k :: 0 <= k < |p.rsaKeyBits| && p.rsaKeyBits[k] == p.fixedRsaKeyBits
                      && h.fixedEncryptLatency == cases[RSA_ENCRYPT].latency[k]
  }

  /** The analysis of a loaded summary, up to the regressions: every case, the runtime baseline, the fixed key
      and the ends of the scaling lists. */
  method Analyze(s: Summary, p: Parameters, library: Library, ghost g: Contents) returns (r: Result<Report, Failure>)
    requires Holds(s, g)
    ensures r.Ok? <==> && AllAnswered(p, g, |CASE_ORDER|) && s.memoryBaselines != []
                       && p.fixedRsaKeyBits in p.rsaKeyBits && p.attributeCounts != [] && p.subscriberCounts != []
    ensures r.Ok? ==>
              && AllReported(p, g, library, r.value.cases, |CASE_ORDER|)
              && IsEstimate(Peaks(s.memoryBaselines), library, r.value.baselineMemory)
              && FixedReported(p, g, library, r.value.headline)
              && EndsReported(p, r.value.cases, r.value.headline)
  {
    hide AllAnswered, AllReported, Holds, FixedReported, IsEstimate;
    var cases := AnalyzeCases(s, p, library, g);
    if cases.Err? {
      return Err(cases.error);
    }
    ReportedIsShaped(p, g, library, cases.value);
    var baselineMemory := MeanAndInterval(Peaks(s.memoryBaselines), library);
    if baselineMemory.Err? {
      return Err(baselineMemory.error);
    }
    EstimateIs(Peaks(s.memoryBaselines), library);
    var fixedIndex := IndexOf(p.rsaKeyBits, p.fixedRsaKeyBits);
    if fixedIndex.Err? {
      return Err(fixedIndex.error);
    }
    var k := fixedIndex.value;
    var cpabeEncrypt, cpabeDecrypt := cases.value[CPABE_ENCRYPT], cases.value[CPABE_DECRYPT];
    var rsaEncrypt, rsaDecrypt := cases.value[RSA_ENCRYPT], cases.value[RSA_DECRYPT];
    var perSubscriber := cases.value[SUBSCRIBER_ENCRYPT].extra[CiphertextBytes];
    var ciphertexts := cpabeEncrypt.extra[CiphertextBytes];
    if perSubscriber == [] || ciphertexts == [] {
      return Err(IndexError);
    }
    var last := |ciphertexts| - 1;
    var headline := Headline(
      rsaDecrypt.latency[k], rsaDecrypt.throttled[k], rsaEncrypt.latency[k],
      rsaDecrypt.energy.value.estimates[0], rsaDecrypt.energy.value.throttled[0], rsaDecrypt.memory.value[0],
      perSubscriber[0], ciphertexts[0], ciphertexts[last],
      cpabeEncrypt.latency[0], cpabeEncrypt.latency[last], cpabeDecrypt.latency[0], cpabeDecrypt.latency[last]);
    FixedIsReported(p, g, library, cases.value, k, headline);
    r := Ok(Report(cases.value, baselineMemory.value, headline));
  }

  // ---- from the files to the report --------------------------------------------------------

  ghost function ContentsOf(timingRows: seq<TimingRow>, memoryRows: seq<MemoryRow>, energyRows: seq<CsvRow>): Contents
    requires Loadable(timingRows) && forall k :: 0 <= k < |memoryRows| ==> LoadableRow(memoryRows[k])
  {
    Contents(GroupBy(LoadedRows(timingRows)), GroupBy(WorkloadCases(memoryRows)),
             GroupByNested(WorkloadRows(energyRows)), GroupBy(BaselineRows(energyRows)))
  }

  /** The whole load. */
  method LoadSummary(timingRows: seq<TimingRow>, memoryRows: seq<MemoryRow>, energyRows: seq<CsvRow>)
    returns (r: Result<Summary, Failure>)
    ensures r.Ok? <==> Loadable(timingRows) && forall k :: 0 <= k < |memoryRows| ==> LoadableRow(memoryRows[k])
    ensures r.Ok? ==> Holds(r.value, ContentsOf(timingRows, memoryRows, energyRows))
                      && r.value.memoryBaselines == BaselineCases(memoryRows)
    ensures r.Err? ==> r.error == ValueError
  {
    hide Loadable, LoadedRows, WorkloadCases, BaselineCases, WorkloadRows, BaselineRows, GroupBy, GroupByNested,
         AggregationList.Shows, EnergyList.Valid, EnergyList.Shows, BaselineList.Shows;
    var timing, timingFailure := LoadTimingResults(timingRows);
    if timingFailure.Some? {
      return Err(timingFailure.value);
    }
    var memoryBaselines, memory, memoryFailure := LoadMemoryResults(memoryRows);
    if memoryFailure.Some? {
      return Err(memoryFailure.value);
    }
    var energyBaselines, energy := LoadEnergyResults(energyRows);
    r := Ok(Summary(timing, memory, memoryBaselines, energy, energyBaselines));
  }

  /** The rows load and the report can be made of them. */
  ghost predicate ReportSucceeds(p: Parameters, timingRows: seq<TimingRow>, memoryRows: seq<MemoryRow>,
                                 energyRows: seq<CsvRow>)
  {
    && Loadable(timingRows) && (forall k :: 0 <= k < |memoryRows| ==> LoadableRow(memoryRows[k]))
    && AllAnswered(p, ContentsOf(timingRows, memoryRows, energyRows), |CASE_ORDER|) && BaselineCases(memoryRows) != []
    && p.fixedRsaKeyBits in p.rsaKeyBits && p.attributeCounts != [] && p.subscriberCounts != []
  }

  /** Loading and analyzing, up to the regressions. */
  method CreateReport(timingRows: seq<TimingRow>, memoryRows: seq<MemoryRow>, energyRows: seq<CsvRow>, p: Parameters,
                      library: Library)
    returns (r: Result<Report, Failure>)
    ensures r.Ok? <==> ReportSucceeds(p, timingRows, memoryRows, energyRows)
    ensures r.Ok? ==>
              var g := ContentsOf(timingRows, memoryRows, energyRows);
              && AllReported(p, g, library, r.value.cases, |CASE_ORDER|)
              && IsEstimate(Peaks(BaselineCases(memoryRows)), library, r.value.baselineMemory)
              && FixedReported(p, g, library, r.value.headline)
              && EndsReported(p, r.value.cases, r.value.headline)
  {
    hide Loadable, AllAnswered, AllReported, FixedReported, EndsReported, Holds, LoadableRow, BaselineCases, ContentsOf;
    var summary := LoadSummary(timingRows, memoryRows, energyRows);
    if summary.Err? {
      return Err(summary.error);
    }
    r := Analyze(summary.value, p, library, ContentsOf(timingRows, memoryRows, energyRows));
  }

  // ---- on what the orchestrator produces ---------------------------------------------------

  lemma TimingIsAnswered(groups: seq<Group<Identity, TimingCase>>, c: ReportCase, id: Identity)
    requires TimingFound(groups, c, id)
    ensures TimingAnswered(Lookup(groups, id))
    ensures forall m <- ExtraMeasurements(c) :: Averages(Lookup(groups, id), m)
  {
    var items := groups[Find(groups, id)].items;
    hide ExtraMeasurements;
    forall k, m | 0 <= k < |items| && m in ExtraMeasurements(c) + {NsPerOp, TimingResults.Throttled}
      ensures m in items[k].measurements
    {
      assert m in items[k].measurements.Keys;
    }
    AnyThrottledIsSome(FlagsOfTiming(items));
  }

  /** The searched timing aggregation is among those found exactly when the value is among those timed. */
  lemma TimingOfIsTimed(p: Parameters, c: ReportCase, g: Contents, v: nat)
    requires c.algorithm in PARAMETER_BY_ALGORITHM && TimingsAnswered(p, c, g)
    ensures SomeTimingOf(p, c, g, v) <==> v in TimingValues(p, c.algorithm)
  {
    var values := TimingValues(p, c.algorithm);
    hide TimingValues;
    if k :| 0 <= k < |values| && values[k] == v {
      assert Lookup(g.timing, Demanded(c, values[k])).Some?;
      assert FindsTiming(c, g, values[k], Demanded(c, v));
    }
  }

  /** A case whose aggregations are complete is answered exactly when all values it measures energy of are timed. */
  lemma CompleteIsAnswered(p: Parameters, c: ReportCase, g: Contents, memoryBaselines: seq<MemoryCase>)
    requires c in CASE_ORDER && TimingComplete(p, g.timing) && MemoryComplete(p, g.memory, memoryBaselines)
    requires EnergyComplete(p, g.energy, g.energyBaselines)
    ensures c.algorithm in PARAMETER_BY_ALGORITHM
    ensures CaseAnswered(p, c, g) <==> forall v <- EnergyMemoryValues(p, c) :: v in TimingValues(p, c.algorithm)
  {
    CaseNames(c);
    hide TimingValues, EnergyMemoryValues, TimingFound, EnergyFound, MemoryFound, Demanded, TimingAnswered, Averages,
         CASE_ORDER, ExtraMeasurements, SomeTimingOf;
    forall v | v in TimingValues(p, c.algorithm)
      ensures TimingAnswered(Lookup(g.timing, Demanded(c, v)))
      ensures forall m <- ExtraMeasurements(c) :: Averages(Lookup(g.timing, Demanded(c, v)), m)
    {
      TimingIsAnswered(g.timing, c, Demanded(c, v));
    }
    forall v | v in EnergyMemoryValues(p, c)
      ensures EnergyAnswered(Lookup(g.energy, Demanded(c, v))) && MemoryAnswered(Lookup(g.memory, Demanded(c, v)))
      ensures SomeTimingOf(p, c, g, v) <==> v in TimingValues(p, c.algorithm)
    {
      FoundIsAnswered(g, Demanded(c, v));
      TimingOfIsTimed(p, c, g, v);
    }
  }

  lemma FoundIsAnswered(g: Contents, id: Identity)
    requires EnergyFound(g.energy, id) && MemoryFound(g.memory, id)
    ensures EnergyAnswered(Lookup(g.energy, id)) && MemoryAnswered(Lookup(g.memory, id))
  {
  }

  lemma EnergyIsTimed(p: Parameters)
    ensures (forall c, v | c in CASE_ORDER && v in EnergyMemoryValues(p, c) :: v in TimingValues(p, c.algorithm))
            <==> p.fixedRsaKeyBits in p.rsaKeyBits
  {
    FixedIsAsked(p);
  }

  lemma CompleteIsAllAnswered(p: Parameters, g: Contents, memoryBaselines: seq<MemoryCase>)
    requires TimingComplete(p, g.timing) && MemoryComplete(p, g.memory, memoryBaselines)
    requires EnergyComplete(p, g.energy, g.energyBaselines)
    ensures AllAnswered(p, g, |CASE_ORDER|) <==> p.fixedRsaKeyBits in p.rsaKeyBits
  {
    hide TimingComplete, MemoryComplete, EnergyComplete, CaseAnswered, TimingValues, EnergyMemoryValues;
    forall c | c in CASE_ORDER
      ensures c.algorithm in PARAMETER_BY_ALGORITHM
      ensures CaseAnswered(p, c, g) <==> forall v <- EnergyMemoryValues(p, c) :: v in TimingValues(p, c.algorithm)
    {
      CompleteIsAnswered(p, c, g, memoryBaselines);
    }
    EnergyIsTimed(p);
  }

  lemma NoBaselineNoAnswer(p: Parameters, g: Contents)
    requires g.energyBaselines == []
    ensures !AllAnswered(p, g, |CASE_ORDER|)
  {
    assert CASE_ORDER[4] == RSA_DECRYPT;
    hide TimingsAnswered, MemoriesAnswered, ExtrasAnswered;
  }

  /** On what the orchestrator produces with no empty sample window, all loads, lookups, statistics and indices of
      the report succeed exactly when there is at least one run, both scaling lists are non-empty and the fixed
      key size is among the timed ones.  Nothing is asked of the lists beyond that. */
  lemma ReportSucceedsExactlyWhen(p: Parameters, timingText: seq<Line>, memoryText: seq<Line>, windows: seq<Window>,
                                  timingRows: seq<TimingRow>, memoryRows: seq<MemoryRow>)
    requires Printed(TimingFile, timingText, Plan(TimingSchedule(p), p.runs))
    requires Printed(MemoryFile, memoryText, Plan(MemorySchedule(p), p.runs))
    requires IsEnergyFile(windows, p) && Sampled(windows)
    requires Converts(CpabeRsa, Numbered(ReadingsOf(timingText)), timingRows)
    requires ConvertsPeaks(Numbered(ReadingsOf(memoryText)), memoryRows)
    ensures ReportSucceeds(p, timingRows, memoryRows, FileRows(windows)) <==>
            && p.runs > 0 && p.attributeCounts != [] && p.subscriberCounts != []
            && p.fixedRsaKeyBits in p.rsaKeyBits
  {
    hide TimingComplete, WorkloadRows, FileRows, IsEnergyFile, Printed, Converts, ConvertsPeaks, Numbered, Readings,
         LoadedRows, WorkloadCases, BaselineCases, Plan, Loadable, GroupByNested, AllAnswered, LoadableRow,
         EnergyComplete, GroupBy, BaselineRows, EnergyFound, MemoryFound;
    var energyRows := FileRows(windows);
    if p.runs > 0 {
      TimingLookupsSucceed(p, timingText, timingRows);
      MemoryLookupsSucceed(p, memoryText, memoryRows);
      EnergyLookupsSucceed(p, windows);
      CompleteIsAllAnswered(p, ContentsOf(timingRows, memoryRows, energyRows), BaselineCases(memoryRows));
    } else {
      NothingMeasured(p, windows);
      if ReportSucceeds(p, timingRows, memoryRows, energyRows) {
        NoBaselineNoAnswer(p, ContentsOf(timingRows, memoryRows, energyRows));
      }
    }
  }

  // ---- what the figures mean ---------------------------------------------------------------

  /** The runs a latency is averaged over are the identity's lines of the text, in their order. */
  lemma LatencyIsOfText(readings: seq<Reading>, rows: seq<TimingRow>, id: Identity)
    requires Converts(CpabeRsa, Numbered(readings), rows) && Workloads(readings)
    ensures Loadable(rows)
    ensures var held := Lookup(GroupBy(LoadedRows(rows)), id);
            && (held.Some? <==> Occurrences(readings, id) > 0)
            && (held.Some? ==> held.value == Select(Cases(CpabeRsa, readings), id)
                               && |held.value| == Occurrences(readings, id))
  {
    hide Converts, Workloads, Numbered, LoadedRows, GroupBy, Cases, Select, Occurrences;
    PipelineIsStableGroupBy(CpabeRsa, readings, rows, id);
  }

  /** The energy of a value: its mean is the mean power of its runs less the idle power, times the mean latency in
      seconds; its interval is that of its runs' powers, times the size of that latency. */
  lemma EnergyOfPowers(c: ReportCase, g: Contents, v: nat, library: Library, energy: Estimate, powers: Estimate)
    requires c.algorithm in PARAMETER_BY_ALGORITHM && EnergyOfValue(c, g, v, library, energy) && IsLibrary(library)
    requires IsEstimate(RunPowers(Lookup(g.energy, Demanded(c, v)).value), library, powers)
    ensures var latency := Mean(Values(Lookup(g.timing, Demanded(c, v)).value, NsPerOp)) / 1000000000.0;
            && energy.mean == Affine(powers.mean, IdlePower(g.energyBaselines), latency)
            && energy.interval == Product(Abs(latency), powers.interval)
  {
    var held, cases := Lookup(g.energy, Demanded(c, v)).value, Lookup(g.timing, Demanded(c, v)).value;
    assert Seconds(cases) == Mean(Values(cases, NsPerOp)) / 1000000000.0;
    hide Lookup, Mean, Powers, RunPowers, IdlePower, Seconds, Scaled, IsEstimate, Affine, Product, Abs;
    EstimateScaled(RunPowers(held), IdlePower(g.energyBaselines), Seconds(cases), library, powers, energy);
  }
}
