/** The statistics of the reports, over real numbers: mean latency of a macro repetition, joined by message
    identifier, and mean energy per operation. */
module Statistics {
  import opened Wrappers
  import opened Protocol
  import opened Grouping
  import opened BenchmarkText
  import opened TimingResults
  import opened RunSummary
  import opened EnergySummary
  import opened RoundArithmetic
  import opened ProtocolInvariant
  import opened MacroRoundTrip
  import opened ResultArena
  import opened MacroRows
  import opened Estimates
  import MacroSummary

  type Identifier = MacroSummary.Identifier
  type MacroCase = MacroSummary.MacroCase
  type MacroAggregation = MacroSummary.MacroAggregation
  type BenchmarkSummary = MacroSummary.BenchmarkSummary

  // ---- macro latency -----------------------------------------------------------------------

  /** The sum of the times of some messages, taken in any order. */
  ghost function SumTimes(times: map<Identifier, int>, ids: set<Identifier>): int
    requires ids <= times.Keys
  {
    if ids == {} then 0
    else
      var id :| id in ids;
      times[id] + SumTimes(times, ids - {id})
  }

  /** Which message is taken first does not matter. */
  lemma {:induction false} SumTimesAny(times: map<Identifier, int>, ids: set<Identifier>, first: Identifier)
    requires ids <= times.Keys && first in ids
    ensures SumTimes(times, ids) == times[first] + SumTimes(times, ids - {first})
    decreases |ids|
  {
    var id :| id in ids && SumTimes(times, ids) == times[id] + SumTimes(times, ids - {id});
    if id != first {
      SumTimesAny(times, ids - {id}, first);
      SumTimesAny(times, ids - {first}, id);
      assert ids - {id} - {first} == ids - {first} - {id};
    }
  }

  /** Subtracts the start from the end of every published message and averages.  The dictionary is visited
      in an arbitrary order; the result does not depend on it. */
  method MeanLatency(published: map<Identifier, int>, arrived: map<Identifier, int>) returns (r: Result<real, Failure>)
    ensures r.Ok? <==> published != map[] && published.Keys <= arrived.Keys
    ensures r.Ok? ==> r.value * |published| as real ==
                      Difference(published, arrived, published.Keys)
    ensures r.Err? ==> r.error == if published == map[] then StatisticsError else KeyError
  {
    hide SumTimes, Sum, Mean;
    NothingSummed(published, arrived);
    var values: seq<real> := [];
    var rest := published.Keys;
    while rest != {}
      invariant rest <= published.Keys && published.Keys - rest <= arrived.Keys
      invariant |values| + |rest| == |published|
      invariant Sum(values) == Difference(published, arrived, published.Keys - rest)
      decreases |rest|
    {
      var id :| id in rest;
      if id !in arrived {
        return Err(KeyError);
      }
      NextDifference(published, arrived, published.Keys - rest, id, values);
      values := values + [(arrived[id] - published[id]) as real];
      assert published.Keys - (rest - {id}) == published.Keys - rest + {id};
      rest := rest - {id};
    }
    assert published.Keys - rest == published.Keys;
    r := Fmean(values);
    if values != [] {
      MeanTimesCount(values);
    }
  }

  /** Ends minus starts of some messages. */
  ghost function Difference(published: map<Identifier, int>, arrived: map<Identifier, int>, ids: set<Identifier>): real
    requires ids <= published.Keys && ids <= arrived.Keys
  {
    (SumTimes(arrived, ids) - SumTimes(published, ids)) as real
  }

  lemma NothingSummed(published: map<Identifier, int>, arrived: map<Identifier, int>)
    ensures Sum([]) == 0.0 == Difference(published, arrived, published.Keys - published.Keys)
  {
    assert published.Keys - published.Keys == {};
  }

  lemma NextDifference(published: map<Identifier, int>, arrived: map<Identifier, int>, seen: set<Identifier>,
                       id: Identifier, values: seq<real>)
    requires seen + {id} <= published.Keys && seen + {id} <= arrived.Keys && id !in seen
    requires Sum(values) == Difference(published, arrived, seen)
    ensures Sum(values + [(arrived[id] - published[id]) as real]) == Difference(published, arrived, seen + {id})
  {
    SumTimesAny(arrived, seen + {id}, id);
    SumTimesAny(published, seen + {id}, id);
    assert seen + {id} - {id} == seen;
    var longer := values + [(arrived[id] - published[id]) as real];
    assert longer[..|values|] == values;
  }

  function TotalTime(samples: seq<Sample>): int {
    if samples == [] then 0 else TotalTime(samples[..|samples| - 1]) + samples[|samples| - 1].time
  }

  /** The identifiers of the first `n` samples. */
  function FirstIds(samples: seq<Sample>, n: nat): set<Identifier>
    requires n <= |samples|
  {
    set i | 0 <= i < n :: Some(samples[i].id)
  }

  lemma FirstIdsNext(samples: seq<Sample>, n: nat)
    requires 0 < n <= |samples| && DistinctIds(samples)
    ensures FirstIds(samples, n) == FirstIds(samples, n - 1) + {Some(samples[n - 1].id)}
    ensures Some(samples[n - 1].id) !in FirstIds(samples, n - 1)
  {
  }

  /** The dictionary of a list of samples sums to the samples' times. */
  lemma {:induction false} SumOfSamples(times: map<Identifier, int>, samples: seq<Sample>, n: nat)
    requires n <= |samples| && DistinctIds(samples) && FirstIds(samples, n) <= times.Keys
    requires forall i :: 0 <= i < |samples| ==> Some(samples[i].id) in times && times[Some(samples[i].id)] == samples[i].time
    ensures SumTimes(times, FirstIds(samples, n)) == TotalTime(samples[..n])
  {
    if n > 0 {
      hide FirstIds, SumTimes;
      FirstIdsNext(samples, n);
      SumOfSamples(times, samples, n - 1);
      var last := Some(samples[n - 1].id);
      SumTimesAny(times, FirstIds(samples, n), last);
      assert FirstIds(samples, n) - {last} == FirstIds(samples, n - 1);
      assert samples[..n][..n - 1] == samples[..n - 1];
    }
  }

  /** The mean latency of a repetition whose dictionaries hold the same whole round: all ends less all
      starts, divided by the message count, in whatever order the messages arrived. */
  lemma LatencyOfRound(c: Config, slot: nat, published: map<Identifier, int>, arrived: map<Identifier, int>,
                       sent: seq<Sample>, handled: seq<Sample>)
    requires CaseTimes(c, slot, published, sent) && CaseTimes(c, slot, arrived, handled)
    requires DistinctIds(sent) && DistinctIds(handled) && c.messageCount > 0
    ensures published.Keys == arrived.Keys && |published| == c.messageCount && published != map[]
    ensures SumTimes(arrived, published.Keys) - SumTimes(published, published.Keys) == TotalTime(handled) - TotalTime(sent)
  {
    hide SumTimes, TotalTime, RoundIds, Config.RoundOf;
    KeysOfSamples(published, sent);
    KeysOfSamples(arrived, handled);
    SumOfSamples(published, sent, |sent|);
    SumOfSamples(arrived, handled, |handled|);
    assert sent[..|sent|] == sent && handled[..|handled|] == handled;
  }

  lemma KeysOfSamples(times: map<Identifier, int>, samples: seq<Sample>)
    requires DistinctIds(samples) && |times| == |samples|
    requires forall i :: 0 <= i < |samples| ==> Some(samples[i].id) in times
    ensures times.Keys == FirstIds(samples, |samples|)
  {
    CountIds(samples, |samples|);
    SubsetOfSameSize(FirstIds(samples, |samples|), times.Keys);
  }

  lemma {:induction false} CountIds(samples: seq<Sample>, n: nat)
    requires DistinctIds(samples) && n <= |samples|
    ensures |FirstIds(samples, n)| == n
  {
    if n > 0 {
      CountIds(samples, n - 1);
      FirstIdsNext(samples, n);
    }
  }

  lemma {:induction false} TotalTimeRemove(samples: seq<Sample>, j: nat)
    requires j < |samples|
    ensures TotalTime(samples) == TotalTime(samples[..j] + samples[j + 1..]) + samples[j].time
  {
    var n := |samples| - 1;
    var rest := samples[..j] + samples[j + 1..];
    if j < n {
      TotalTimeRemove(samples[..n], j);
      assert rest[..|rest| - 1] == samples[..n][..j] + samples[..n][j + 1..];
      assert rest[|rest| - 1] == samples[n];
    } else {
      assert rest == samples[..n];
    }
  }

  lemma Without(samples: seq<Sample>, j: nat)
    requires j < |samples|
    ensures multiset(samples) == multiset(samples[..j] + samples[j + 1..]) + multiset{samples[j]}
  {
    assert samples == samples[..j] + [samples[j]] + samples[j + 1..];
  }

  lemma SameRest(a: multiset<Sample>, b: multiset<Sample>, x: Sample)
    requires a + multiset{x} == b + multiset{x}
    ensures a == b
  {
    assert a == a + multiset{x} - multiset{x};
    assert b == b + multiset{x} - multiset{x};
  }

  lemma SamplePosition(samples: seq<Sample>, x: Sample) returns (j: nat)
    requires x in multiset(samples)
    ensures j < |samples| && samples[j] == x
  {
    j :| 0 <= j < |samples| && samples[j] == x;
  }

  /** The total does not depend on the order of arrival. */
  lemma {:induction false} TotalTimeOrderFree(a: seq<Sample>, b: seq<Sample>)
    requires multiset(a) == multiset(b)
    ensures TotalTime(a) == TotalTime(b)
  {
    if a == [] {
      assert |multiset(b)| == 0;
    } else {
      var n := |a| - 1;
      Without(a, n);
      assert a[..n] + a[n + 1..] == a[..n];
      var j := SamplePosition(b, a[n]);
      Without(b, j);
      SameRest(multiset(a[..n]), multiset(b[..j] + b[j + 1..]), a[n]);
      TotalTimeOrderFree(a[..n], b[..j] + b[j + 1..]);
      TotalTimeRemove(b, j);
    }
  }

  /** So on every completed protocol run the mean latency reported for a repetition is all end times less
      all start times, divided by the message count. */
  lemma ReportedLatency(c: Config, run: seq<Action>, s: State, published: seq<RunResult>, arrived: seq<RunResult>,
                        summary: BenchmarkSummary, scenario: string, p: nat, r: nat)
    requires Closed(c, run, s, published, arrived)
    requires DistinctSizes(c) && c.messageCount > 0 && p < |c.payloadSizes| && r < c.runs
    requires summary.Valid() && summary.Shows(scenario, Nested(c, published), Written(c, arrived, c.Slots()))
    ensures |summary.macroAggregations| == |c.payloadSizes| && |summary.macroAggregations[p].cases| == c.runs
    ensures var item, slot := summary.macroAggregations[p].cases[r], SlotIndex(c, p, r);
            && item.publisherTimestamps != map[] && |item.publisherTimestamps| == c.messageCount
            && item.publisherTimestamps.Keys == item.subscriberTimestamps.Keys
            && slot < |s.publisher.results| == |s.subscriber.results|
            && Difference(item.publisherTimestamps, item.subscriberTimestamps, item.publisherTimestamps.Keys) ==
               (TotalTime(s.subscriber.results[slot]) - TotalTime(s.publisher.results[slot])) as real
  {
    hide BenchmarkSummary.Valid, BenchmarkSummary.Shows, Written, Nested, CaseTimes, TotalTime, SumTimes,
         Config.RoundOf, Config.Rounds, Execute;
    ReportedCase(c, run, s, published, arrived, summary, scenario, p, r);
    var slot := SlotIndex(c, p, r);
    ClosedWindows(c, run, s, published, arrived, slot);
    var item := summary.macroAggregations[p].cases[r];
    LatencyOfRound(c, slot, item.publisherTimestamps, item.subscriberTimestamps,
                   s.publisher.results[slot], s.subscriber.results[slot]);
  }

  /** A repetition's mean latency and the mean of the repetitions, as the report computes them. */
  method RepetitionMeans(cases: seq<MacroCase>) returns (r: Result<seq<real>, Failure>)
    ensures r.Ok? <==> forall i :: 0 <= i < |cases| ==> Joined(cases[i])
    ensures r.Ok? ==> |r.value| == |cases| && forall i :: 0 <= i < |cases| ==> LatencyIs(cases[i], r.value[i])
  {
    hide Difference;
    var values: seq<real> := [];
    for i := 0 to |cases|
      invariant |values| == i
      invariant forall k :: 0 <= k < i ==> Joined(cases[k]) && LatencyIs(cases[k], values[k])
    {
      var value := MeanLatency(cases[i].publisherTimestamps, cases[i].subscriberTimestamps);
      if value.Err? {
        return Err(value.error);
      }
      values := values + [value.value];
    }
    return Ok(values);
  }

  ghost predicate Joined(item: MacroCase)
    reads item
  {
    item.publisherTimestamps != map[] && item.publisherTimestamps.Keys <= item.subscriberTimestamps.Keys
  }

  ghost predicate LatencyIs(item: MacroCase, mean: real)
    reads item
  {
    && Joined(item)
    && mean * |item.publisherTimestamps| as real ==
       Difference(item.publisherTimestamps, item.subscriberTimestamps, item.publisherTimestamps.Keys)
  }

  /** The macro latency statistics: per aggregation the mean over its repetitions, not over its messages, and
      the interval of the repetitions. */
  method MacroLatencyStatistics(aggregations: seq<MacroAggregation>, library: Library)
    returns (r: Result<seq<Estimate>, Failure>)
    ensures r.Ok? <==> forall i :: 0 <= i < |aggregations| ==>
                         && aggregations[i].cases != []
                         && forall k :: 0 <= k < |aggregations[i].cases| ==> Joined(aggregations[i].cases[k])
    ensures r.Ok? ==> |r.value| == |aggregations|
                      && forall i :: 0 <= i < |aggregations| ==> OfRepetitions(aggregations[i], library, r.value[i])
  {
    hide LatencyIs, Joined, IsEstimate, EstimateOf;
    var estimates: seq<Estimate> := [];
    for i := 0 to |aggregations|
      invariant |estimates| == i
      invariant forall k :: 0 <= k < i ==>
                  && aggregations[k].cases != []
                  && (forall l :: 0 <= l < |aggregations[k].cases| ==> Joined(aggregations[k].cases[l]))
                  && OfRepetitions(aggregations[k], library, estimates[k])
    {
      var values := RepetitionMeans(aggregations[i].cases);
      if values.Err? {
        return Err(values.error);
      }
      var estimate := MeanAndInterval(values.value, library);
      if estimate.Err? {
        return Err(estimate.error);
      }
      EstimateIs(values.value, library);
      assert AreLatencies(aggregations[i].cases, values.value);
      estimates := estimates + [estimate.value];
    }
    return Ok(estimates);
  }

  ghost predicate AreLatencies(cases: seq<MacroCase>, latencies: seq<real>)
    reads cases
  {
    |latencies| == |cases| && forall k :: 0 <= k < |cases| ==> LatencyIs(cases[k], latencies[k])
  }

  /** One value per repetition, its mean latency; the estimate is that of those values. */
  ghost predicate OfRepetitions(aggregation: MacroAggregation, library: Library, estimate: Estimate)
    reads aggregation, aggregation.cases
  {
    exists latencies :: AreLatencies(aggregation.cases, latencies) && latencies != []
                        && IsEstimate(latencies, library, estimate)
  }

  // ---- energy per operation ----------------------------------------------------------------

  const NS_PER_SECOND := 1000000000.0

  function Powers(samples: seq<EnergySample>): (powers: seq<real>)
    ensures |powers| == |samples| && forall i :: 0 <= i < |samples| ==> powers[i] == samples[i].power
  {
    seq(|samples|, i requires 0 <= i < |samples| => samples[i].power)
  }

  ghost predicate AllSampled(cases: seq<EnergyCase>)
    reads cases
  {
    forall i :: 0 <= i < |cases| ==> cases[i].samples != []
  }

  /** The mean power of each case. */
  ghost function CasePowers(cases: seq<EnergyCase>): (powers: seq<real>)
    requires AllSampled(cases)
    reads cases
    ensures |powers| == |cases| && forall i :: 0 <= i < |cases| ==> powers[i] == Mean(Powers(cases[i].samples))
  {
    seq(|cases|, i requires 0 <= i < |cases| && AllSampled(cases) reads cases => Mean(Powers(cases[i].samples)))
  }

  method MeanPowers(cases: seq<EnergyCase>) returns (r: Result<seq<real>, Failure>)
    ensures r.Ok? <==> AllSampled(cases)
    ensures r.Ok? ==> r.value == CasePowers(cases)
    ensures r.Err? ==> r.error == StatisticsError
  {
    var powers: seq<real> := [];
    for i := 0 to |cases|
      invariant |powers| == i
      invariant forall k :: 0 <= k < i ==> cases[k].samples != [] && powers[k] == Mean(Powers(cases[k].samples))
    {
      if cases[i].samples == [] {
        return Err(StatisticsError);
      }
      powers := powers + [Mean(Powers(cases[i].samples))];
    }
    return Ok(powers);
  }

  /** The energies of the cases of one aggregation. */
  method JoulesPerOperation(aggregation: EnergyAggregation, idlePower: real, meanLatency: real)
    returns (r: Result<seq<real>, Failure>)
    ensures r.Ok? <==> AllSampled(aggregation.cases)
    ensures r.Ok? ==> r.value == Scaled(CasePowers(aggregation.cases), idlePower, meanLatency)
    ensures r.Err? ==> r.error == StatisticsError
  {
    hide Mean, Affine, Powers;
    var values: seq<real> := [];
    for i := 0 to |aggregation.cases|
      invariant |values| == i
      invariant forall k :: 0 <= k < i ==>
                  && aggregation.cases[k].samples != []
                  && values[k] == Affine(Mean(Powers(aggregation.cases[k].samples)), idlePower, meanLatency)
    {
      if aggregation.cases[i].samples == [] {
        return Err(StatisticsError);
      }
      var loadPower := Mean(Powers(aggregation.cases[i].samples));
      values := values + [Affine(loadPower, idlePower, meanLatency)];
    }
    return Ok(values);
  }

  predicate AllMeasured(cases: seq<TimingCase>, m: Measurement) {
    forall i :: 0 <= i < |cases| ==> m in cases[i].measurements
  }

  /** One measurement of each case. */
  function Values(cases: seq<TimingCase>, m: Measurement): (values: seq<real>)
    requires AllMeasured(cases, m)
    ensures |values| == |cases| && forall i :: 0 <= i < |cases| ==> values[i] == cases[i].measurements[m]
  {
    seq(|cases|, i requires 0 <= i < |cases| && AllMeasured(cases, m) => cases[i].measurements[m])
  }

  /** The first timing aggregation of an identity, all before it being there. */
  ghost predicate Matches(timings: seq<Aggregation?<TimingCase>>, identity: Identity, at: int) {
    && 0 <= at < |timings| && timings[at] != null && timings[at].identity == identity
    && forall j :: 0 <= j < at ==> timings[j] != null && timings[j].identity != identity
  }

  ghost predicate HasMatch(timings: seq<Aggregation?<TimingCase>>, identity: Identity) {
    exists at :: Matches(timings, identity, at)
  }

  /** The search for the matching timing aggregation; a missing one in its way has no identity to compare. */
  method NextMatch(timings: seq<Aggregation?<TimingCase>>, identity: Identity)
    returns (found: Result<Aggregation<TimingCase>, Failure>, ghost at: int)
    ensures found.Ok? <==> HasMatch(timings, identity)
    ensures found.Ok? ==> Matches(timings, identity, at) && found.value == timings[at]
    ensures found == Err(AttributeError) ==> null in timings
    ensures found.Err? && null !in timings ==> found.error == StopIteration
  {
    for i := 0 to |timings|
      invariant forall j :: 0 <= j < i ==> timings[j] != null && timings[j].identity != identity
    {
      var timing := timings[i];
      if timing == null {
        return Err(AttributeError), -1;
      }
      if timing.identity == identity {
        assert Matches(timings, identity, i);
        return Ok(timing), i;
      }
    }
    return Err(StopIteration), -1;
  }

  /** Everything a mean energy needs is there. */
  ghost predicate Determined(aggregation: EnergyAggregation?, timings: seq<Aggregation?<TimingCase>>)
    reads aggregation, if aggregation == null then [] else aggregation.cases, timings
  {
    && aggregation != null && HasMatch(timings, aggregation.identity)
    && (forall at :: Matches(timings, aggregation.identity, at) ==>
          timings[at].cases != [] && AllMeasured(timings[at].cases, NsPerOp))
    && aggregation.cases != [] && AllSampled(aggregation.cases)
  }

  /** Energy per operation: load power less idle power, times latency; the interval is that of the cases'
      energies, with the latency held fixed. */
  ghost predicate EnergyIs(aggregation: EnergyAggregation, idlePower: real, timings: seq<Aggregation?<TimingCase>>,
                           at: int, library: Library, energy: Estimate)
    reads aggregation, aggregation.cases, timings
  {
    && Matches(timings, aggregation.identity, at)
    && timings[at].cases != [] && AllMeasured(timings[at].cases, NsPerOp)
    && aggregation.cases != [] && AllSampled(aggregation.cases)
    && var latency := Mean(Values(timings[at].cases, NsPerOp)) / NS_PER_SECOND;
       && energy.mean == (Mean(CasePowers(aggregation.cases)) - idlePower) * latency
       && IsEstimate(Scaled(CasePowers(aggregation.cases), idlePower, latency), library, energy)
  }

  lemma MatchIsUnique(timings: seq<Aggregation?<TimingCase>>, identity: Identity, at: int, other: int)
    requires Matches(timings, identity, at) && Matches(timings, identity, other)
    ensures at == other
  {
  }

  /** The mean energy per operation of one aggregation: the mean of its cases' mean powers less the idle
      power, times the mean latency of the matching timing aggregation. */
  method EnergyOf(aggregation: EnergyAggregation?, idlePower: real, timings: seq<Aggregation?<TimingCase>>,
                  library: Library)
    returns (r: Result<Estimate, Failure>, ghost at: int)
    ensures r.Ok? <==> Determined(aggregation, timings)
    ensures r.Ok? ==> EnergyIs(aggregation, idlePower, timings, at, library, r.value)
    ensures r.Err? && aggregation != null && null !in timings && !HasMatch(timings, aggregation.identity) ==>
              r.error == StopIteration
    ensures aggregation == null ==> r == Err(if timings == [] then StopIteration else AttributeError)
  {
    hide Mean, Powers, CasePowers, Values, Scaled;
    at := -1;
    if aggregation == null {
      return Err(if timings == [] then StopIteration else AttributeError), at;
    }
    var found;
    found, at := NextMatch(timings, aggregation.identity);
    if found.Err? {
      return Err(found.error), at;
    }
    forall other | Matches(timings, aggregation.identity, other)
      ensures other == at
    {
      MatchIsUnique(timings, aggregation.identity, at, other);
    }
    var cases := found.value.cases;
    if !AllMeasured(cases, NsPerOp) {
      return Err(KeyError), at;
    }
    if cases == [] {
      return Err(StatisticsError), at;
    }
    var meanLatency := Mean(Values(cases, NsPerOp)) / NS_PER_SECOND;
    var values := JoulesPerOperation(aggregation, idlePower, meanLatency);
    if values.Err? {
      return Err(values.error), at;
    }
    r := MeanAndInterval(values.value, library);
    if aggregation.cases != [] {
      MeanScaled(CasePowers(aggregation.cases), idlePower, meanLatency);
      EstimateIs(values.value, library);
    }
  }

  /** The energy statistics of a report.  The idle power is the mean of the baselines' mean powers. */
  method EnergyStatistics(aggregations: seq<EnergyAggregation?>, baselines: seq<EnergyCase>,
                          timings: seq<Aggregation?<TimingCase>>, library: Library)
    returns (r: Result<seq<Estimate>, Failure>, ghost at: seq<int>)
    ensures r.Ok? <==> baselines != [] && AllSampled(baselines)
                       && forall i :: 0 <= i < |aggregations| ==> Determined(aggregations[i], timings)
    ensures r.Ok? ==>
              && |r.value| == |at| == |aggregations|
              && forall i :: 0 <= i < |aggregations| ==>
                   aggregations[i] != null
                   && EnergyIs(aggregations[i], Mean(CasePowers(baselines)), timings, at[i], library, r.value[i])
  {
    hide Mean, Powers, CasePowers, Values, EnergyIs;
    at := [];
    var idle := MeanPowers(baselines);
    if idle.Err? || idle.value == [] {
      return Err(StatisticsError), at;
    }
    var estimates: seq<Estimate> := [];
    for i := 0 to |aggregations|
      invariant |estimates| == |at| == i
      invariant forall k :: 0 <= k < i ==>
                  && Determined(aggregations[k], timings)
                  && EnergyIs(aggregations[k], Mean(CasePowers(baselines)), timings, at[k], library, estimates[k])
    {
      var estimate, position := EnergyOf(aggregations[i], Mean(idle.value), timings, library);
      if estimate.Err? {
        return Err(estimate.error), at;
      }
      estimates, at := estimates + [estimate.value], at + [position];
    }
    r := Ok(estimates);
  }
}
