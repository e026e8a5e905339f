/** From a completed protocol run to the latencies the macro report shows, in terms of the times at which the
    run's own actions published and delivered the messages. */
module MacroReport {
  import opened Wrappers
  import opened RoundArithmetic
  import opened Protocol
  import opened ProtocolInvariant
  import opened ProtocolSafety
  import opened RunTimes
  import opened Grouping
  import opened BenchmarkText
  import opened ResultArena
  import opened MacroRows
  import opened MacroRoundTrip
  import opened Estimates
  import opened Statistics
  import MacroSummary

  // ---- the times of a round ----------------------------------------------------------------

  /** When the messages of a round were published and when they were delivered. */
  ghost predicate RoundTimes(c: Config, run: seq<Action>, round: nat, starts: seq<nat>, ends: seq<nat>) {
    && |starts| == |ends| == c.messageCount
    && forall i :: 0 <= i < c.messageCount ==>
         && PublishedAt(c, run, Message(round, i), starts[i])
         && DeliveredAt(run, Message(round, i), ends[i])
  }

  /** The delays of the first `n` messages, added up. */
  function Delays(starts: seq<nat>, ends: seq<nat>, n: nat): int
    requires n <= |starts| && n <= |ends|
  {
    if n == 0 then 0 else Delays(starts, ends, n - 1) + ends[n - 1] - starts[n - 1]
  }

  /** A run has only one list of times for a round. */
  lemma RoundTimesUnique(c: Config, run: seq<Action>, round: nat, starts: seq<nat>, ends: seq<nat>,
                         otherStarts: seq<nat>, otherEnds: seq<nat>)
    requires Execute(c, run).Some?
    requires RoundTimes(c, run, round, starts, ends) && RoundTimes(c, run, round, otherStarts, otherEnds)
    ensures starts == otherStarts && ends == otherEnds
  {
    hide Execute, PublishesAt, DeliversAt;
    forall i | 0 <= i < c.messageCount
      ensures starts[i] == otherStarts[i] && ends[i] == otherEnds[i]
    {
      var m := Message(round, i);
      assert PublishedAt(c, run, m, starts[i]) && PublishedAt(c, run, m, otherStarts[i]);
      assert DeliveredAt(run, m, ends[i]) && DeliveredAt(run, m, otherEnds[i]);
      var k: nat :| PublishesAt(c, run, k, m, starts[i]);
      var l: nat :| PublishesAt(c, run, l, m, otherStarts[i]);
      PublishedOnce(c, run, m, k, starts[i], l, otherStarts[i]);
      k :| DeliversAt(run, k, m, ends[i]);
      l :| DeliversAt(run, l, m, otherEnds[i]);
      DeliveredOnce(c, run, m, k, ends[i], l, otherEnds[i]);
    }
  }

  lemma {:induction false} TotalDelays(sent: seq<Sample>, ordered: seq<Sample>, starts: seq<nat>, ends: seq<nat>, n: nat)
    requires n <= |sent| == |ordered| == |starts| == |ends|
    requires forall i :: 0 <= i < n ==> sent[i].time == starts[i] && ordered[i].time == ends[i]
    ensures TotalTime(ordered[..n]) - TotalTime(sent[..n]) == Delays(starts, ends, n)
  {
    if n > 0 {
      TotalDelays(sent, ordered, starts, ends, n - 1);
      assert sent[..n][..n - 1] == sent[..n - 1] && ordered[..n][..n - 1] == ordered[..n - 1];
    }
  }

  lemma HandledOf(handled: seq<Sample>, round: nat, n: nat, i: nat) returns (k: nat)
    requires Arrangement(handled, round, n) && i < n
    ensures k < n && handled[k].id == Message(round, i)
  {
    assert Message(round, i) in Ids(handled);
    var x :| x in handled && x.id == Message(round, i);
    k :| 0 <= k < |handled| && handled[k] == x;
  }

  /** The handled samples in the order of their messages. */
  lemma {:induction false} InMessageOrder(handled: seq<Sample>, round: nat, n: nat, k: nat) returns (ordered: seq<Sample>)
    requires Arrangement(handled, round, n) && k <= n
    ensures |ordered| == k && forall i :: 0 <= i < k ==> ordered[i] in handled && ordered[i].id == Message(round, i)
  {
    ordered := [];
    if k > 0 {
      var before := InMessageOrder(handled, round, n, k - 1);
      var j := HandledOf(handled, round, n, k - 1);
      ordered := before + [handled[j]];
    }
  }

  lemma SameSample(handled: seq<Sample>, a: Sample, b: Sample)
    requires DistinctIds(handled) && a in handled && b in handled && a.id == b.id
    ensures a == b
  {
  }

  lemma OrderedHasAll(handled: seq<Sample>, round: nat, n: nat, ordered: seq<Sample>)
    requires Arrangement(handled, round, n) && |ordered| == n
    requires forall i :: 0 <= i < n ==> ordered[i] in handled && ordered[i].id == Message(round, i)
    ensures forall x <- handled :: x in ordered
  {
    forall x | x in handled
      ensures x in ordered
    {
      assert x.id in Ids(handled);
      var i := x.id.index;
      assert ordered[i].id == x.id;
      SameSample(handled, x, ordered[i]);
    }
  }

  lemma {:induction false} CountInDistinct(samples: seq<Sample>, x: Sample)
    requires DistinctIds(samples)
    ensures multiset(samples)[x] == if x in samples then 1 else 0
  {
    if samples != [] {
      var n := |samples| - 1;
      CountInDistinct(samples[..n], x);
      assert samples == samples[..n] + [samples[n]];
      if x in samples[..n] {
        var i :| 0 <= i < n && samples[..n][i] == x;
        assert samples[i].id != samples[n].id;
      }
    }
  }

  /** In the order of their messages the samples have the same total. */
  lemma OrderedTotal(handled: seq<Sample>, round: nat, n: nat, ordered: seq<Sample>)
    requires Arrangement(handled, round, n) && |ordered| == n
    requires forall i :: 0 <= i < n ==> ordered[i] in handled && ordered[i].id == Message(round, i)
    ensures TotalTime(ordered) == TotalTime(handled)
  {
    OrderedHasAll(handled, round, n, ordered);
    forall x
      ensures multiset(ordered)[x] == multiset(handled)[x]
    {
      CountInDistinct(ordered, x);
      CountInDistinct(handled, x);
    }
    TotalTimeOrderFree(ordered, handled);
  }

  lemma SentTimes(c: Config, run: seq<Action>, round: nat, sent: seq<Sample>) returns (starts: seq<nat>)
    requires InOrder(sent, round, c.messageCount) && StartTimes(c, run, sent)
    ensures |starts| == c.messageCount
    ensures forall i :: 0 <= i < c.messageCount ==>
              starts[i] == sent[i].time && PublishedAt(c, run, Message(round, i), starts[i])
  {
    hide PublishedAt;
    starts := seq(c.messageCount, i requires 0 <= i < |sent| => sent[i].time);
    forall i | 0 <= i < c.messageCount
      ensures PublishedAt(c, run, Message(round, i), starts[i])
    {
      assert sent[i] in sent;
    }
  }

  /** What both endpoints recorded of a round adds up to the delays of the round's own publishes and deliveries. */
  lemma RecordedDelays(c: Config, run: seq<Action>, round: nat, sent: seq<Sample>, handled: seq<Sample>)
    returns (starts: seq<nat>, ends: seq<nat>)
    requires InOrder(sent, round, c.messageCount) && Arrangement(handled, round, c.messageCount)
    requires StartTimes(c, run, sent) && EndTimes(run, handled)
    ensures RoundTimes(c, run, round, starts, ends)
    ensures TotalTime(handled) - TotalTime(sent) == Delays(starts, ends, c.messageCount)
  {
    hide PublishedAt, DeliveredAt, Arrangement, Delays, TotalTime;
    var n := c.messageCount;
    starts := SentTimes(c, run, round, sent);
    var ordered := InMessageOrder(handled, round, n, n);
    ends := seq(n, i requires 0 <= i < |ordered| => ordered[i].time);
    forall i | 0 <= i < n
      ensures DeliveredAt(run, Message(round, i), ends[i])
    {
      assert ordered[i] in handled;
    }
    OrderedTotal(handled, round, n, ordered);
    TotalDelays(sent, ordered, starts, ends, n);
    assert sent[..n] == sent && ordered[..n] == ordered;
  }

  // ---- from the protocol to the reported latency -------------------------------------------

  /** A mean latency of a round: times the message count it is the sum of the delays from the publish to the delivery
      of each of its messages. */
  ghost predicate IsLatencyOf(c: Config, run: seq<Action>, round: nat, latency: real) {
    exists starts, ends ::
      RoundTimes(c, run, round, starts, ends)
      && latency * c.messageCount as real == Delays(starts, ends, c.messageCount) as real
  }

  /** The mean latencies of a payload's repetitions: of the rounds after its warm-up runs. */
  ghost predicate RunLatencies(c: Config, run: seq<Action>, p: nat, latencies: seq<real>) {
    && |latencies| == c.runs
    && forall r :: 0 <= r < c.runs ==>
         IsLatencyOf(c, run, p * (c.warmupRuns + c.runs) + c.warmupRuns + r, latencies[r])
  }

  /** The estimate reported for a payload is that of its repetitions' mean latencies. */
  ghost predicate OfRuns(c: Config, run: seq<Action>, p: nat, library: Library, estimate: Estimate) {
    exists latencies :: RunLatencies(c, run, p, latencies) && IsEstimate(latencies, library, estimate)
  }

  lemma RoundOfSlot(c: Config, p: nat, r: nat)
    requires p < |c.payloadSizes| && r < c.runs
    ensures c.RoundOf(SlotIndex(c, p, r)) == p * (c.warmupRuns + c.runs) + c.warmupRuns + r
  {
    FirstSlotIsProduct(c, p);
    DivModOf(c.runs, p, r);
  }

  lemma TimedResults(c: Config, run: seq<Action>, s: State, slot: nat)
    requires Execute(c, run) == Some(s) && slot < |s.publisher.results| && slot < |s.subscriber.results|
    ensures StartTimes(c, run, s.publisher.results[slot]) && EndTimes(run, s.subscriber.results[slot])
  {
    TimesOfRun(c, run, s);
  }

  lemma ClosedSlot(c: Config, run: seq<Action>, s: State, slot: nat)
    requires Execute(c, run) == Some(s) && PublisherPhase(s.publisher.pc) == Closing && slot < c.Slots()
    ensures SlotWhole(c, s, slot)
  {
    ClosedEndpointIsComplete(c, run, s);
    hide Config.Slots, SlotWhole;
  }

  lemma LatencyOfSlot(c: Config, run: seq<Action>, s: State, slot: nat, latency: real)
    requires Execute(c, run) == Some(s) && SlotWhole(c, s, slot)
    requires latency * c.messageCount as real ==
             (TotalTime(s.subscriber.results[slot]) - TotalTime(s.publisher.results[slot])) as real
    ensures IsLatencyOf(c, run, c.RoundOf(slot), latency)
  {
    hide Execute, TotalTime, StartTimes, EndTimes, InOrder, Arrangement, Config.RoundOf;
    TimedResults(c, run, s, slot);
    var starts, ends := RecordedDelays(c, run, c.RoundOf(slot), s.publisher.results[slot], s.subscriber.results[slot]);
    hide RoundTimes;
  }

  lemma ReportedPayload(c: Config, run: seq<Action>, s: State, published: seq<RunResult>, arrived: seq<RunResult>,
                        summary: BenchmarkSummary, scenario: string, p: nat, library: Library, estimate: Estimate)
    requires Closed(c, run, s, published, arrived)
    requires DistinctSizes(c) && c.messageCount > 0 && c.runs > 0 && p < |c.payloadSizes|
    requires summary.Valid() && summary.Shows(scenario, Nested(c, published), Written(c, arrived, c.Slots()))
    requires |summary.macroAggregations| == |c.payloadSizes|
    requires OfRepetitions(summary.macroAggregations[p], library, estimate)
    ensures OfRuns(c, run, p, library, estimate)
  {
    hide BenchmarkSummary.Valid, BenchmarkSummary.Shows, Written, Nested, TotalTime, SumTimes, Difference,
         Config.RoundOf, Config.Rounds, Config.Slots, Execute, IsEstimate, Closed, SlotIndex, IsLatencyOf, SlotWhole;
    ClosedParts(c, run, s, published, arrived);
    ReportedLatency(c, run, s, published, arrived, summary, scenario, p, 0);
    var cases := summary.macroAggregations[p].cases;
    var latencies :| AreLatencies(cases, latencies) && latencies != [] && IsEstimate(latencies, library, estimate);
    forall r | 0 <= r < c.runs
      ensures IsLatencyOf(c, run, p * (c.warmupRuns + c.runs) + c.warmupRuns + r, latencies[r])
    {
      ReportedLatency(c, run, s, published, arrived, summary, scenario, p, r);
      assert LatencyIs(cases[r], latencies[r]);
      ClosedSlot(c, run, s, SlotIndex(c, p, r));
      LatencyOfSlot(c, run, s, SlotIndex(c, p, r), latencies[r]);
      RoundOfSlot(c, p, r);
    }
    assert RunLatencies(c, run, p, latencies);
  }

  lemma ClosedParts(c: Config, run: seq<Action>, s: State, published: seq<RunResult>, arrived: seq<RunResult>)
    requires Closed(c, run, s, published, arrived)
    ensures Execute(c, run) == Some(s) && PublisherPhase(s.publisher.pc) == Closing
  {
  }

  lemma ClosedResults(c: Config, run: seq<Action>, s: State, published: seq<RunResult>, arrived: seq<RunResult>)
    requires Closed(c, run, s, published, arrived)
    ensures |s.publisher.results| == |s.subscriber.results| == |published| == |arrived| == c.Slots()
  {
  }

  lemma ReportedJoins(c: Config, run: seq<Action>, s: State, published: seq<RunResult>, arrived: seq<RunResult>,
                      summary: BenchmarkSummary, scenario: string, p: nat)
    requires Closed(c, run, s, published, arrived)
    requires DistinctSizes(c) && c.messageCount > 0 && c.runs > 0 && p < |c.payloadSizes|
    requires summary.Valid() && summary.Shows(scenario, Nested(c, published), Written(c, arrived, c.Slots()))
    ensures |summary.macroAggregations| == |c.payloadSizes| && summary.macroAggregations[p].cases != []
    ensures forall k :: 0 <= k < |summary.macroAggregations[p].cases| ==> Joined(summary.macroAggregations[p].cases[k])
  {
    hide BenchmarkSummary.Valid, BenchmarkSummary.Shows, Written, Nested, Difference, Closed, SlotIndex, Config.Slots;
    ReportedLatency(c, run, s, published, arrived, summary, scenario, p, 0);
    forall k | 0 <= k < |summary.macroAggregations[p].cases|
      ensures Joined(summary.macroAggregations[p].cases[k])
    {
      ReportedLatency(c, run, s, published, arrived, summary, scenario, p, k);
    }
  }

  /** From the rows both endpoints of a completed protocol run wrote to the latencies the report shows: the
      load and the statistics succeed, there is one estimate per payload size, and it is that of the
      repetitions' mean latencies, each the mean delay from the publish to the delivery of the round's messages,
      whatever the interleaving of the run was. */
  method LatencyOfRuns(c: Config, ghost run: seq<Action>, ghost s: State, ghost published: seq<RunResult>,
                       ghost arrived: seq<RunResult>, publisherRows: seq<MacroRow>, subscriberRows: seq<MacroRow>,
                       scenario: string, library: Library)
    returns (r: Result<seq<Estimate>, Failure>)
    requires Closed(c, run, s, published, arrived) && DistinctSizes(c) && c.messageCount > 0
    requires publisherRows == Written(c, published, c.Slots()) && subscriberRows == Written(c, arrived, c.Slots())
    ensures r.Ok? && |r.value| == if c.runs == 0 then 0 else |c.payloadSizes|
    ensures forall p :: 0 <= p < |r.value| ==> OfRuns(c, run, p, library, r.value[p])
  {
    hide MacroSummary.BenchmarkSummary.Valid, MacroSummary.BenchmarkSummary.Shows, Written, Nested, OfRepetitions, OfRuns,
         Closed, Joined, MacroSummary.AllHaveCases, GroupByNested;
    ClosedResults(c, run, s, published, arrived);
    var summary, ok := MacroSummary.LoadMacroSummary(publisherRows, subscriberRows, scenario);
    if c.runs == 0 {
      NothingWritten(c, published, arrived, summary, scenario, publisherRows, subscriberRows, ok);
    } else {
      RoundTrip(c, run, s, published, arrived);
      forall p | 0 <= p < |c.payloadSizes|
        ensures |summary.macroAggregations| == |c.payloadSizes| && summary.macroAggregations[p].cases != []
        ensures forall k :: 0 <= k < |summary.macroAggregations[p].cases| ==> Joined(summary.macroAggregations[p].cases[k])
      {
        ReportedJoins(c, run, s, published, arrived, summary, scenario, p);
      }
      ShownCount(summary, scenario, Nested(c, published), subscriberRows);
      NestedCount(c, published);
    }
    if !ok {
      return Err(AttributeError);
    }
    r := MacroLatencyStatistics(summary.macroAggregations, library);
    forall p | 0 <= p < |r.value|
      ensures OfRuns(c, run, p, library, r.value[p])
    {
      ReportedPayload(c, run, s, published, arrived, summary, scenario, p, library, r.value[p]);
    }
  }

  lemma ShownCount(summary: BenchmarkSummary, scenario: string, groups: MacroSummary.Grouped, arrived: seq<MacroRow>)
    requires summary.Valid() && summary.Shows(scenario, groups, arrived)
    ensures |summary.macroAggregations| == |groups|
  {
  }

  lemma NestedCount(c: Config, published: seq<RunResult>)
    requires |published| == c.Slots()
    ensures |Nested(c, published)| == |c.payloadSizes|
  {
  }

  lemma NothingWritten(c: Config, published: seq<RunResult>, arrived: seq<RunResult>, summary: BenchmarkSummary,
                       scenario: string, publisherRows: seq<MacroRow>, subscriberRows: seq<MacroRow>, ok: bool)
    requires c.runs == 0 && |published| == |arrived| == c.Slots()
    requires publisherRows == Written(c, published, c.Slots()) && subscriberRows == Written(c, arrived, c.Slots())
    requires summary.Valid() && (ok <==> MacroSummary.AllHaveCases(GroupByNested(publisherRows), subscriberRows))
    requires ok ==> summary.Shows(scenario, GroupByNested(publisherRows), subscriberRows)
    ensures ok && summary.macroAggregations == []
  {
    assert c.Slots() == 0 && publisherRows == [] && subscriberRows == [];
    assert GroupByNested(publisherRows) == [];
  }
}
