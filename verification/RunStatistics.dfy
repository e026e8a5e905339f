/** The statistics and throttle flags that the reports of independent runs take from found aggregations, any of
    which may be missing. */
module RunStatistics {
  import opened Wrappers
  import opened BenchmarkText
  import opened TimingResults
  import opened MemoryResults
  import opened RunSummary
  import opened EnergySummary
  import opened Estimates
  import opened Statistics

  // ---- means -------------------------------------------------------------------------------

  /** A timing aggregation a measurement can be averaged over. */
  ghost predicate Averaged(aggregation: Aggregation?<TimingCase>, m: Measurement)
    reads aggregation
  {
    aggregation != null && aggregation.cases != [] && AllMeasured(aggregation.cases, m)
  }

  /** One estimate per aggregation; a missing aggregation, a missing measurement or an aggregation without
      cases ends it. */
  method TimingStatistics(aggregations: seq<Aggregation?<TimingCase>>, m: Measurement, library: Library)
    returns (r: Result<seq<Estimate>, Failure>)
    ensures r.Ok? <==> forall i :: 0 <= i < |aggregations| ==> Averaged(aggregations[i], m)
    ensures r.Ok? ==>
              && |r.value| == |aggregations|
              && forall i :: 0 <= i < |aggregations| ==>
                   Averaged(aggregations[i], m) && IsEstimate(Values(aggregations[i].cases, m), library, r.value[i])
    ensures r == Err(AttributeError) <==>
              exists i :: 0 <= i < |aggregations| && aggregations[i] == null
                          && forall j :: 0 <= j < i ==> Averaged(aggregations[j], m)
  {
    hide IsEstimate, EstimateOf;
    var estimates: seq<Estimate> := [];
    for i := 0 to |aggregations|
      invariant |estimates| == i
      invariant forall k :: 0 <= k < i ==>
                  Averaged(aggregations[k], m) && IsEstimate(Values(aggregations[k].cases, m), library, estimates[k])
    {
      var aggregation := aggregations[i];
      if aggregation == null {
        return Err(AttributeError);
      }
      if !AllMeasured(aggregation.cases, m) {
        return Err(KeyError);
      }
      var estimate := MeanAndInterval(Values(aggregation.cases, m), library);
      if estimate.Err? {
        return Err(estimate.error);
      }
      EstimateIs(Values(aggregation.cases, m), library);
      estimates := estimates + [estimate.value];
    }
    return Ok(estimates);
  }

  function Peaks(cases: seq<MemoryCase>): (peaks: seq<real>)
    ensures |peaks| == |cases| && forall i :: 0 <= i < |cases| ==> peaks[i] == cases[i].peak
  {
    seq(|cases|, i requires 0 <= i < |cases| => cases[i].peak)
  }

  method MemoryStatistics(aggregations: seq<Aggregation?<MemoryCase>>, library: Library)
    returns (r: Result<seq<Estimate>, Failure>)
    ensures r.Ok? <==> forall i :: 0 <= i < |aggregations| ==> aggregations[i] != null && aggregations[i].cases != []
    ensures r.Ok? ==>
              && |r.value| == |aggregations|
              && forall i :: 0 <= i < |aggregations| ==>
                   && aggregations[i] != null && aggregations[i].cases != []
                   && IsEstimate(Peaks(aggregations[i].cases), library, r.value[i])
  {
    hide IsEstimate, EstimateOf;
    var estimates: seq<Estimate> := [];
    for i := 0 to |aggregations|
      invariant |estimates| == i
      invariant forall k :: 0 <= k < i ==>
                  && aggregations[k] != null && aggregations[k].cases != []
                  && IsEstimate(Peaks(aggregations[k].cases), library, estimates[k])
    {
      var aggregation := aggregations[i];
      if aggregation == null {
        return Err(AttributeError);
      }
      var estimate := MeanAndInterval(Peaks(aggregation.cases), library);
      if estimate.Err? {
        return Err(estimate.error);
      }
      EstimateIs(Peaks(aggregation.cases), library);
      estimates := estimates + [estimate.value];
    }
    return Ok(estimates);
  }

  // ---- flags -------------------------------------------------------------------------------

  /** Whether a case throttled, looking no further than the first that did; a case without the measurement
      that is looked at ends it. */
  function AnyThrottled(flags: seq<Option<real>>): Result<bool, Failure> {
    if flags == [] then Ok(false)
    else if flags[0].None? then Err(KeyError)
    else if flags[0].value > 0.0 then Ok(true)
    else AnyThrottled(flags[1..])
  }

  /** With every flag there, the answer is whether some flag is set. */
  lemma {:induction false} AnyThrottledIsSome(flags: seq<Option<real>>)
    requires forall i :: 0 <= i < |flags| ==> flags[i].Some?
    ensures AnyThrottled(flags) == Ok(exists i :: 0 <= i < |flags| && flags[i].value > 0.0)
  {
    if flags != [] && flags[0].value <= 0.0 {
      AnyThrottledIsSome(flags[1..]);
      if i :| 0 <= i < |flags| && flags[i].value > 0.0 {
        assert flags[1..][i - 1].value > 0.0;
      }
    }
  }

  /** The search fails exactly at a missing flag that no set flag stands before. */
  lemma {:induction false} AnyThrottledFails(flags: seq<Option<real>>)
    ensures AnyThrottled(flags).Err? <==>
              exists i :: 0 <= i < |flags| && flags[i].None?
                          && forall j :: 0 <= j < i ==> flags[j].Some? && flags[j].value <= 0.0
    ensures AnyThrottled(flags).Err? ==> AnyThrottled(flags).error == KeyError
  {
    if flags != [] && flags[0].Some? && flags[0].value <= 0.0 {
      var rest := flags[1..];
      AnyThrottledFails(rest);
      if i :| 0 <= i < |rest| && rest[i].None? && forall j :: 0 <= j < i ==> rest[j].Some? && rest[j].value <= 0.0 {
        assert flags[i + 1].None? && forall j :: 0 <= j < i + 1 ==> flags[j] == if j == 0 then flags[0] else rest[j - 1];
      }
      if i :| 0 <= i < |flags| && flags[i].None? && forall j :: 0 <= j < i ==> flags[j].Some? && flags[j].value <= 0.0 {
        assert rest[i - 1].None? && forall j :: 0 <= j < i - 1 ==> rest[j] == flags[j + 1];
      }
    }
  }

  function FlagsOfTiming(cases: seq<TimingCase>): (flags: seq<Option<real>>)
    ensures |flags| == |cases|
    ensures forall i :: 0 <= i < |cases| ==>
              flags[i] == if TimingResults.Throttled in cases[i].measurements
                          then Some(cases[i].measurements[TimingResults.Throttled]) else None
  {
    seq(|cases|, i requires 0 <= i < |cases| =>
      if TimingResults.Throttled in cases[i].measurements then Some(cases[i].measurements[TimingResults.Throttled])
      else None)
  }

  ghost function FlagsOfEnergy(cases: seq<EnergyCase>): (flags: seq<Option<real>>)
    reads cases
    ensures |flags| == |cases|
    ensures forall i :: 0 <= i < |cases| ==>
              flags[i] == if THROTTLED in cases[i].measurements then Some(cases[i].measurements[THROTTLED]) else None
  {
    seq(|cases|, i requires 0 <= i < |cases| reads cases =>
      if THROTTLED in cases[i].measurements then Some(cases[i].measurements[THROTTLED]) else None)
  }

  /** One flag per aggregation. */
  method CollectTimingThrottleFlags(aggregations: seq<Aggregation<TimingCase>>) returns (r: Result<seq<bool>, Failure>)
    ensures r.Ok? <==> forall i :: 0 <= i < |aggregations| ==> AnyThrottled(FlagsOfTiming(aggregations[i].cases)).Ok?
    ensures r.Ok? ==>
              && |r.value| == |aggregations|
              && forall i :: 0 <= i < |aggregations| ==>
                   AnyThrottled(FlagsOfTiming(aggregations[i].cases)) == Ok(r.value[i])
  {
    var throttled: seq<bool> := [];
    for i := 0 to |aggregations|
      invariant |throttled| == i
      invariant forall k :: 0 <= k < i ==> AnyThrottled(FlagsOfTiming(aggregations[k].cases)) == Ok(throttled[k])
    {
      var any := AnyThrottled(FlagsOfTiming(aggregations[i].cases));
      if any.Err? {
        return Err(any.error);
      }
      throttled := throttled + [any.value];
    }
    return Ok(throttled);
  }

  method AnyEnergyThrottled(cases: seq<EnergyCase>) returns (r: Result<bool, Failure>)
    ensures r == AnyThrottled(FlagsOfEnergy(cases))
  {
    ghost var flags := FlagsOfEnergy(cases);
    for i := 0 to |cases|
      invariant AnyThrottled(flags) == AnyThrottled(flags[i..])
    {
      if THROTTLED !in cases[i].measurements {
        return Err(KeyError);
      }
      if cases[i].measurements[THROTTLED] > 0.0 {
        return Ok(true);
      }
      assert flags[i..][1..] == flags[i + 1..];
    }
    return Ok(false);
  }

  method CollectEnergyThrottleFlags(aggregations: seq<EnergyAggregation>) returns (r: Result<seq<bool>, Failure>)
    ensures r.Ok? <==> forall i :: 0 <= i < |aggregations| ==> AnyThrottled(FlagsOfEnergy(aggregations[i].cases)).Ok?
    ensures r.Ok? ==>
              && |r.value| == |aggregations|
              && forall i :: 0 <= i < |aggregations| ==>
                   AnyThrottled(FlagsOfEnergy(aggregations[i].cases)) == Ok(r.value[i])
  {
    var throttled: seq<bool> := [];
    for i := 0 to |aggregations|
      invariant |throttled| == i
      invariant forall k :: 0 <= k < i ==> AnyThrottled(FlagsOfEnergy(aggregations[k].cases)) == Ok(throttled[k])
    {
      var any := AnyEnergyThrottled(aggregations[i].cases);
      if any.Err? {
        return Err(any.error);
      }
      throttled := throttled + [any.value];
    }
    return Ok(throttled);
  }
}
