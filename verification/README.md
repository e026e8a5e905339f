# Verified model of the MQTT encryption benchmarks

This project models the benchmark suite that compares encryption schemes for MQTT payloads on small
boards, and proves what its results depend on. It has four parts.

1. **The macrobenchmark protocol.** A coordinator, a publisher and a subscriber exchange GO, READY, DONE
   and FINISH over four pipes while a broker delivers messages to a callback. `Protocol` is a labelled
   transition system: any interleaving, any failing step, and a broker that may lose and reorder but not
   duplicate messages (QoS 0, section 4.3.1 of MQTT Version 3.1.1) and that replaces an earlier subscription
   (section 3.8.4). `ProtocolInvariant`, `ProtocolSafety` and `ProtocolTermination` hold the invariant, what
   follows from it, and termination; `RunTimes` ties every recorded time to the action of the run that took it.
   `SignalPipe` and `DeliveryCallback` refine its queues and its handler.
2. **From the measurements to the macro report.** `ResultArena` is the pre-touched flat array that is cut into
   windows, `MacroRows` the writer that labels by division and modulo, `MacroSummary` the loader that fills
   objects by find-or-create, and `MacroRoundTrip`, `Statistics` and `MacroReport` follow one protocol run through
   all of them to the reported latency. `Estimates` is the mean and the interval every report shows.
3. **The microbenchmark pipeline.** `BenchmarkText`, `BenchmarkResults`, `TimingResults`, `MemoryResults`,
   `RunSummary` and `EnergySummary` read, number, convert and group results; `CpabeRsaSchedule` is what one
   orchestrator measures, `CpabeRsaReport` what its report looks up, `EnergyFlags` what happens to the throttle
   flags, and `CpabeRsaAnalysis` with `RunStatistics` the report's loop over the loaded objects. `Grouping` is the
   reference definition that all loaders are proved against.
4. **Algorithms that stand alone.** `CounterLifecycle`, `AxisTicks`, `Throttling`, `PowerMeter` and
   `TemplateReport`.

Code that changes state step by step is modelled by classes and methods with loops, and each method is proved
against a specification function or predicate; what the suite promises is proved about those. Expressions are
functions and lemmas.

Readings of the code worth knowing:

- A round with no messages never completes, although the configuration allows it: the callback compares its
  counter only after a delivery. `ProtocolTermination.CompletesExactlyWhen` gives the exact condition.
- The stored energy flag is the first row's. An attribute or subscriber count that is listed twice has its runs
  measured twice and merged, so the flag can be wrong; `EnergyFlags.FlagAlwaysKeptExactlyWhen` shows that distinct
  lists are exactly what rules it out, and `EnergyFlags.RepeatedValueKeepsFirstFlag` gives the failing file.
- The replacements of the report template depend on their order when a value contains another placeholder's mark;
  `TemplateReport.OrderNeverMattersExactlyWhen` gives the exact condition.
- A benchmark run that fails half-way leaves its samples in its result window; nothing reads them, because the
  endpoint ends.
- The result-text counter numbers a baseline by its printed parameter value as well, although the row it
  writes leaves the value empty.
- The throttle decoder pads to twenty digits; from 2^20 on the repeat count is negative and it panics.

Preconditions that are stated, not proved: payload sizes are distinct, message identifiers are distinct within
a run, all three processes share one configuration, callbacks run one at a time, timestamps are not negative,
and, for the theorems about whole energy files, every measurement window has a sample. Real numbers stand in for
floating point.

Verify with `dafny verify dfyconfig.toml`; the proofs are written for `--resource-limit 2000000`.

## Model

| member | source | states |
|---|---|---|
| `RoundArithmetic.LoopPosition` | benchmark/cmd/macro/shared/runner.go:75-77 | an endpoint inside its payload and run loops has finished fewer rounds than the coordinator counts; leaving the loops means having finished them all |
| `RoundArithmetic.SlotOfRun` | benchmark/cmd/macro/shared/runner.go:94 | a measured run's result index is inside the result list and that slot belongs to that round |
| `RoundArithmetic.SlotUnique` | benchmark/cmd/macro/shared/runner.go:83-102 | no other slot belongs to a run, and a warm-up run has none |
| `RoundArithmetic.RunOfSlot` | benchmark/cmd/macro/shared/runner.go:182-188 | every slot belongs to exactly one measured run of the loops: run to index is a bijection |
| `SignalPipe.Pipe.WriteSignal` | utility/golang/communication/communication_signal.go:23-27 | a written signal is one line at the end of the pipe's text |
| `SignalPipe.Pipe.ReadSignal` | utility/golang/communication/communication_signal.go:9-21 | one line is consumed either way and accepted exactly when the text begins with the expected signal and its newline; a text without a newline, as at the end of the pipe, is refused; on the text of the protocol's queue the first signal is consumed and judged |
| `ProtocolInvariant.ActionKeeps` | orchestrate/orchestrate_macro.go:274-314 | one inductive invariant ties pipes, program counters, loop positions, messages in flight, callback and results together, and every action of every process and of the broker keeps it |
| `ProtocolInvariant.Invariant` | benchmark/cmd/macro/shared/runner.go:67-117 | the invariant holds after every run of enabled actions, for every interleaving, configuration, failure and loss |
| `ProtocolSafety.SignalsMatch` | orchestrate/orchestrate_macro.go:295-314 | every consumed line is the expected signal, no pipe ever holds two unread signals, and each endpoint's finished runs and the coordinator's rounds differ by at most one |
| `ProtocolSafety.PublisherNeverFails` | benchmark/cmd/macro/shared/runner.go:79-106 | the publisher's own steps never fail: no wrong signal and no result index out of range |
| `ProtocolSafety.SubscriberFailsOnlyOnMessage` | benchmark/cmd/macro/shared/runner.go:166-191 | the subscriber's own steps fail exactly when the callback reported a message it could not consume |
| `ProtocolSafety.CoordinatorFailsOnlyForChild` | orchestrate/orchestrate_macro.go:288-292 | the coordinator's own steps fail exactly when a child it waits for has failed |
| `ProtocolSafety.RoundIsolation` | benchmark/macro/runner.go:48-76 | a delivery reaches the callback of the round that published the message, not twice, with room for one more measurement |
| `ProtocolSafety.CompletionOnce` | benchmark/macro/runner.go:71-75 | completion is sent at most once per round, exactly when every message of the round was handled once |
| `ProtocolSafety.LossStopsRound` | benchmark/macro/runner.go:84-86 | a round that lost a message never reaches the subscriber's DONE and no later round starts |
| `ProtocolSafety.LossIsFinal` | benchmark/macro/runner.go:84-86 | a loss is final: in every continuation of the run the subscriber still waits in the round that lost the message, and the coordinator still stands in that round |
| `ProtocolSafety.SameRun` | benchmark/cmd/macro/shared/runner.go:83-94 | while both endpoints work they are at the same payload and run, hence agree on warm-up |
| `ProtocolSafety.PublishInsideMeasurement` | benchmark/macro/runner.go:166-176 | every publish of a measured round happens with the publisher's counter enabled, while the subscriber waits with that round's callback and its own counter enabled |
| `ProtocolSafety.DeliverInsideMeasurement` | benchmark/macro/runner.go:211-231 | every delivery of a measured round happens while the subscriber waits with its counter enabled |
| `ProtocolSafety.CountersStopLast` | benchmark/macro/runner.go:134-143 | the publisher's counter stops only after every token completed, the subscriber's only after the whole round was handled and nothing is in flight |
| `ProtocolSafety.ClosedEndpointIsComplete` | benchmark/cmd/macro/shared/runner.go:110-116 | an endpoint goes on to write results only after FINISH and all rounds; then every slot of both endpoints holds its whole round, in publication order and in some order respectively |
| `ProtocolSafety.CoordinatorReturnsLast` | orchestrate/orchestrate_macro.go:288-292 | a coordinator that returns without error has seen both children write their results and return, and leaves no unread signal |
| `ProtocolSafety.ReadsAreChecked` | orchestrate/orchestrate_macro.go:295-314 | in any state, reachable or not, a reader fails exactly when the line it takes is not the one it waits for |
| `ProtocolSafety.FailedChildIsNoticed` | orchestrate/orchestrate_macro.go:288-292 | a coordinator at the wait for a child that has failed can move, and fails |
| `ProtocolSafety.WarmUpRecordsNothing` | benchmark/macro/runner.go:106-129 | on every run, a publisher inside a warm-up run holds no sample |
| `ProtocolSafety.FailedIsReleased` | benchmark/macro/runner.go:161-185 | on every run an endpoint that failed has released its counter, and a disconnected subscriber has no callback |
| `ProtocolSafety.DeliveryWaitsExactlyWhen` | benchmark/macro/runner.go:57-75 | a message in flight always has a callback to go to, whose channel holds one outcome at most; its delivery waits exactly when it would send while an outcome is unread |
| `RunTimes.TimesOfRun` | benchmark/macro/runner.go:56-131 | on every run, each start time the publisher holds is the time of the action that published that message, in the state that stands at it, and each end time of the subscriber is that of the action that delivered the message |
| `RunTimes.PublishedOnce` | benchmark/macro/runner.go:119-131 | no run publishes a message twice, so its start time is unique |
| `RunTimes.DeliveredOnce` | benchmark/macro/runner.go:56-69 | no run delivers a message twice, so its end time is unique |
| `ProtocolTermination.RankDescends` | orchestrate/orchestrate_macro.go:274-292 | every productive action (no failure, no loss) lowers a rank over rounds, program counters, undelivered messages and open tokens |
| `ProtocolTermination.RunBound` | benchmark/cmd/macro/shared/runner.go:75-108 | no productive run, under any schedule, is longer than a bound computed from the configuration |
| `ProtocolTermination.Progress` | benchmark/macro/runner.go:71-86 | in every healthy unfinished state a productive action is enabled, given a message per round or no round |
| `ProtocolTermination.NeverStuck` | orchestrate/orchestrate_macro.go:274-292 | no deadlock: a productive run can go on or is finished with everything recorded at both endpoints |
| `ProtocolTermination.ZeroMessagesHang` | benchmark/macro/runner.go:71-75 | with no messages per round and at least one round, the first round never ends |
| `ProtocolTermination.CanFinish` | orchestrate/orchestrate_macro.go:246-293 | every productive run can be continued to a finished one |
| `ProtocolTermination.CompletesExactlyWhen` | benchmark/macro/runner.go:71-75 | some run finishes exactly when there is a message per round or there is no round |
| `DeliveryCallback.Callback.OnDelivery` | benchmark/macro/runner.go:56-76 | the callback with its captured index, slice and channel moves as the protocol's handler does, writes only inside its slice, and keeps the slice equal to what it handled |
| `DeliveryCallback.HandleDelivery` | benchmark/macro/runner.go:48-76 | every delivery of every protocol run can be handed to the callback object: it is that of the message's own round with a cell left, it does not block, its new state is the protocol's next handler, and nothing outside its slice changes |
| `ResultArena.WindowInside` | benchmark/cmd/macro/shared/runner.go:289-293 | a result's window lies inside the flat array |
| `ResultArena.WindowsDisjoint` | benchmark/cmd/macro/shared/runner.go:289-293 | the windows of two results never overlap |
| `ResultArena.WindowsCover` | benchmark/cmd/macro/shared/runner.go:307-313 | every cell lies in exactly one window |
| `ResultArena.Arena.constructor` | benchmark/cmd/macro/shared/runner.go:280-296 | the prepared results are windows of one flat array whose cells all carry the sentinel |
| `ResultArena.Arena.Touch` | benchmark/cmd/macro/shared/runner.go:318-331 | every cell's time becomes -1 and nothing else changes |
| `ResultArena.Arena.Fill` | benchmark/macro/runner.go:119-131 | the measurement writes of a run change exactly its own stretch of the flat array |
| `ResultArena.Arena.Record` | benchmark/cmd/macro/shared/runner.go:94-101 | a measured run changes its own result and window and no other result |
| `ResultArena.Arena.WriteSamples` | benchmark/macro/runner.go:119-131 | the samples of a run overwrite the start of its own window, cycle total and all other results unchanged |
| `ResultArena.FinishRun` | benchmark/cmd/macro/shared/runner.go:83-102 | one iteration of the run loop records measured runs and skips warm-up runs, keeping every earlier slot |
| `ResultArena.FailRun` | benchmark/cmd/macro/shared/runner.go:86-92 | a measured run that fails leaves the samples it took in its own window and nothing else |
| `ResultArena.RunEndpoint` | benchmark/cmd/macro/shared/runner.go:67-108 | the nested loops fill slot after slot; a failing run ends them at once, with every earlier round stored, the samples it had taken at the start of its own window, no cycle total, and all later windows untouched |
| `ResultArena.NoSentinelLeft` | benchmark/cmd/macro/shared/runner.go:280-331 | after a run in which every round succeeded no -1 and no zero identifier remains in any window |
| `MacroRows.WriteWindow` | benchmark/cmd/macro/shared/runner.go:226-235 | the inner writer loop emits one labelled row per measurement of a window, in order |
| `MacroRows.WriteResults` | benchmark/cmd/macro/shared/runner.go:224-236 | the file holds the rows of all result slots in slot order, labelled by division and modulo |
| `MacroRows.SlotRowsAt` | benchmark/cmd/macro/shared/runner.go:229-230 | the division and modulo labels of a slot are its payload size and its repetition counted from 1 |
| `MacroRows.WrittenIsNested` | benchmark/cmd/macro/shared/runner.go:261-273 | the flat labelling writes exactly the rows of the nested payload and repetition structure, for all configurations |
| `Grouping.CollectIsGroupBy` | report/analysis/shared/load_summary.py:95-134 | the find-or-create scan computes the reference grouping: keys in order of first occurrence, each with all its rows in order |
| `Grouping.CollectConserves` | report/analysis/shared/load_summary.py:109-134 | no row is lost or duplicated, keys are unique, no group is empty and every row's key is found |
| `Grouping.CollectNestedIsGroupBy` | report/analysis/shared/load_summary.py:209-228 | the two-level find-or-create scan groups each group's own rows |
| `Grouping.GroupByFlatten` | report/analysis/shared/load_summary.py:209-228 | grouping rows that were written group by group gives the groups back |
| `Grouping.GroupByFlattenNested` | report/analysis/shared/load_summary.py:209-228 | the two-level round trip, for distinct keys and no empty group |
| `MacroSummary.MacroCase.RecordPublisher` | report/analysis/shared/load_summary.py:225-228 | a publisher row sets the cycle total and its identifier's start time; the subscriber's side is unchanged |
| `MacroSummary.MacroCase.RecordSubscriber` | report/analysis/shared/load_summary.py:240-243 | a subscriber row sets the cycle total and its identifier's arrival time; the publisher's side is unchanged |
| `MacroSummary.MacroAggregation.FindCase` | report/model/macro/macro_aggregation.py:17-23 | the first case of a repetition, or none exactly if there is none |
| `MacroSummary.BenchmarkSummary.FindMacroAggregation` | report/model/benchmark_summary.py:74-86 | the first aggregation of a scenario and payload size, or none exactly if there is none |
| `MacroSummary.BenchmarkSummary.AddPublisherRow` | report/analysis/shared/load_summary.py:211-228 | one publisher row is inserted into the objects as into the grouping; every other case still shows its own rows |
| `MacroSummary.BenchmarkSummary.AddSubscriberRow` | report/analysis/shared/load_summary.py:234-243 | one subscriber row reaches the case of its labels, or fails exactly when there is none |
| `MacroSummary.LoadPublisherRows` | report/analysis/shared/load_summary.py:205-228 | the objects built from the publisher file show its rows grouped by payload size and repetition |
| `MacroSummary.LoadMacroSummary` | report/analysis/shared/load_summary.py:201-245 | the load fails exactly when a subscriber row has no publisher row of its labels; otherwise every case shows its publisher and subscriber rows |
| `MacroRoundTrip.LoadedIsNested` | report/analysis/shared/load_summary.py:209-228 | loading what one endpoint wrote gives one group per payload size and one case per repetition 1..Runs with exactly the recorded entries |
| `MacroRoundTrip.LookupsNeverMiss` | report/analysis/shared/load_summary.py:237-238 | on files written by both endpoints the subscriber-side lookups never miss |
| `MacroRoundTrip.SelectedRun` | benchmark/cmd/macro/shared/runner.go:261-273 | the rows of a payload size and repetition are the entries of that run's slot |
| `MacroRoundTrip.TimestampKeys` | report/analysis/shared/load_summary.py:226-228 | a case's dictionary has the identifiers of its rows as keys, each once |
| `MacroRoundTrip.TimestampOf` | report/analysis/shared/load_summary.py:241-243 | with distinct identifiers every row's own time is in the dictionary |
| `MacroRoundTrip.TimestampsOrderFree` | report/analysis/shared/load_summary.py:241-243 | the dictionary does not depend on the order in which messages arrived |
| `MacroRoundTrip.ArenaHolds` | benchmark/cmd/macro/shared/runner.go:94-101 | an arena filled by the endpoint loops with a protocol run's samples holds that run's results |
| `MacroRoundTrip.RoundTrip` | report/analysis/shared/load_summary.py:201-245 | for every closed protocol run: no lookup misses, and both sides' rows of every case are the ones that run recorded |
| `MacroRoundTrip.ReportedCase` | report/analysis/shared/load_summary.py:225-243 | after the load, each case has its repetition, both cycle totals, and two dictionaries holding exactly that round's messages with their own times |
| `Statistics.SumTimesAny` | report/analysis/shared/statistics.py:182-185 | a sum over a dictionary does not depend on which message is taken first |
| `Statistics.MeanLatency` | report/analysis/shared/statistics.py:182-185 | the mean over published messages times their number is all ends less all starts; it fails exactly on an empty dictionary or a message that never arrived |
| `Statistics.TotalTimeOrderFree` | report/analysis/shared/statistics.py:182-185 | the total of the times is the same for every order of arrival |
| `Statistics.LatencyOfRound` | report/analysis/shared/statistics.py:179-188 | dictionaries of the same whole round join without a miss, and their difference is the samples' totals |
| `Statistics.ReportedLatency` | report/analysis/shared/statistics.py:182-185 | on every closed protocol run both dictionaries of a repetition hold the same messages, as many as the message count, and the sum of all ends less starts over them is that of the run's recorded samples |
| `Statistics.RepetitionMeans` | report/analysis/shared/statistics.py:181-187 | one mean per repetition, failing exactly if some repetition cannot be joined |
| `Statistics.MacroLatencyStatistics` | report/analysis/shared/statistics.py:172-192 | per aggregation the estimate of its repetitions' means, interval by quantile and standard error included; it fails exactly on an aggregation without repetition or a repetition that cannot be joined |
| `MacroReport.RoundTimesUnique` | benchmark/macro/runner.go:56-131 | a run determines the publish and delivery times of a round's messages: there is no second list of them |
| `MacroReport.LatencyOfRuns` | report/analysis/shared/statistics.py:172-192 | from the written rows of a closed protocol run: the load and the statistics succeed, with one estimate per payload size, and it is the estimate of the repetitions' latencies, each times the message count the sum over the round's messages of the time of the run's delivery less the time of its publish |
| `Estimates.EstimateIs` | report/analysis/shared/statistics.py:135-148 | what is reported of values has their mean, and an interval that is the quantile for one degree of freedom less than there are values times the root of an error given by the values' sum and sum of squares alone; it is 0 for one value |
| `Estimates.IntervalZeroExactlyWhen` | report/analysis/shared/statistics.py:135-148 | an interval is never negative, and 0 exactly when all values are equal, as a single one is |
| `Estimates.IntervalOfTwo` | report/analysis/shared/statistics.py:129-148 | the interval of two values is half their distance times the quantile for one degree of freedom |
| `Estimates.EstimateOrderFree` | report/analysis/shared/statistics.py:135-148 | no estimate depends on the order of the runs |
| `Estimates.EstimateScaled` | report/analysis/shared/statistics.py:160-168 | an offset moves the mean and leaves the interval; a factor scales the mean by itself and the interval by its absolute value |
| `Estimates.MeanScaled` | report/analysis/shared/statistics.py:160-168 | the mean commutes with subtracting the idle power and multiplying by the latency |
| `Statistics.MeanPowers` | report/analysis/shared/statistics.py:46-48 | one mean power per case, failing exactly if some case has no samples |
| `Statistics.JoulesPerOperation` | report/analysis/shared/statistics.py:152-168 | one energy per case: mean power less idle power, times the latency |
| `Statistics.NextMatch` | report/analysis/shared/statistics.py:52-59 | the first timing aggregation of an identity with none missing before it; otherwise StopIteration, or AttributeError for a missing one on the way |
| `Statistics.EnergyOf` | report/analysis/shared/statistics.py:50-72 | the mean energy is (mean of mean powers - idle power) times the matching mean latency and the interval is the one of the cases' energies; it exists exactly when the aggregation, its match, cases, samples and latencies do |
| `Statistics.EnergyStatistics` | report/analysis/shared/statistics.py:38-74 | the same for all aggregations, with the idle power the mean of the baselines' mean powers; success exactly when everything it needs is there |
| `RunStatistics.TimingStatistics` | report/analysis/shared/statistics.py:17-34 | the estimate, mean and interval, of a measurement per aggregation; success exactly when every aggregation is there with cases that all have it, AttributeError exactly for a missing aggregation before any other fault |
| `RunStatistics.MemoryStatistics` | report/analysis/shared/statistics.py:78-107 | the estimate, mean and interval, of the peaks per aggregation; success exactly when every aggregation is there with a case |
| `RunStatistics.AnyThrottledIsSome` | report/analysis/shared/metrics.py:12-19 | the short-circuiting search for a throttled case answers whether there is one when every case has the flag |
| `RunStatistics.AnyThrottledFails` | report/analysis/shared/metrics.py:12-19 | the search fails, with a KeyError, exactly when a case without the flag comes before every set flag |
| `RunStatistics.CollectTimingThrottleFlags` | report/analysis/shared/metrics.py:12-19 | one flag per timing aggregation, failing exactly when the search meets a case without the flag |
| `RunStatistics.CollectEnergyThrottleFlags` | report/analysis/shared/metrics.py:23-30 | the same for energy aggregations |
| `BenchmarkText.JoinSplit` | orchestrate/shared/csv.py:48-50 | splitting a name loses nothing |
| `BenchmarkText.SplitJoin` | orchestrate/shared/csv.py:48-50 | splitting finds exactly the parts that were joined |
| `BenchmarkText.NameRoundTrip` | orchestrate/shared/csv.py:48-51 | reading a printed case name gives its parts back, with or without unit and processor count |
| `BenchmarkText.NameExactly` | orchestrate/shared/csv.py:48-51 | a name is accepted exactly when it is three parts joined by slashes, the third an optionally signed number with an optional B, cut at its first dash; every other name is a ValueError |
| `BenchmarkResults.PairsLast` | orchestrate/shared/csv.py:84-87 | a unit's measurement is the value before its last mention on the line |
| `BenchmarkResults.PairsNone` | orchestrate/shared/csv.py:84-87 | a unit the line does not mention is not measured |
| `BenchmarkResults.PairsRead` | orchestrate/shared/csv.py:84-87 | the pairs of a line are read exactly when every value is a number with a unit behind it |
| `BenchmarkResults.ResultLineIsRead` | orchestrate/shared/csv.py:26-87 | a printed result line of each scenario, its prefix, name and parameter written out, is read as that identity, is a baseline exactly for the runtime baseline, and has for each unit the value before its last mention |
| `BenchmarkResults.Count` | orchestrate/shared/csv.py:72-83 | the dictionary that counts identities numbers a line with how often its identity has occurred |
| `BenchmarkResults.ReadBenchmarkResults` | orchestrate/shared/csv.py:24-89 | the reader hands on one numbered row per result line, up to the first malformed line, whose failure it raises |
| `BenchmarkResults.RunsAreConsecutive` | orchestrate/shared/csv.py:72-82 | the runs of each identity are 1, 2, 3, ... in input order, as many as it has lines |
| `BenchmarkResults.RowOfLine` | orchestrate/shared/csv.py:72-89 | the i-th row is that of the i-th result line: a baseline's fields are empty but for its run, any other has the line's identity, and the run counts the identity's lines so far |
| `TimingResults.AddColumns` | orchestrate/shared/csv.py:118-137 | the optional columns of a row are exactly the reported ones, and a missing one is a KeyError |
| `TimingResults.ConvertRow` | orchestrate/shared/csv.py:113-139 | conversion fails exactly when a reported measurement is missing, and loading the row it writes gives the reported measurements and no others |
| `TimingResults.ConvertTimingResults` | orchestrate/shared/csv.py:93-143 | text to rows: success exactly without malformed line and missing measurement; a missing measurement is raised before a later malformed line |
| `TimingResults.LoadCase` | report/analysis/shared/load_summary.py:119-132 | an optional measurement is in the case exactly when the row has its column, with its value |
| `TimingResults.LoadTimingResults` | report/analysis/shared/load_summary.py:88-134 | the objects show the stable grouping of the rows by identity; a baseline row is refused |
| `TimingResults.LoadedIsText` | report/analysis/shared/load_summary.py:95-134 | writing and loading loses nothing: the loader sees the cases of the text |
| `TimingResults.CasesAreNumbered` | report/analysis/shared/load_summary.py:119-134 | each identity's loaded cases are numbered 1..n in the order of its lines |
| `TimingResults.PipelineIsStableGroupBy` | report/analysis/shared/load_summary.py:88-134 | parse, convert and load: exactly the identities of the text have an aggregation, each one, with its lines as cases in order, and as many cases as lines |
| `TimingResults.LoadedIsTimingText` | report/analysis/shared/load_summary.py:95-134 | the same in the text's own terms: the k-th case of an identity has run k and the values its k-th line gives for ns/op, throttled, MB/s and the byte counts, each unit written out, whole numbers truncated |
| `RunSummary.AggregationList.Find` | report/model/benchmark_summary.py:23-54 | the first aggregation with an identity, or none exactly if there is none |
| `RunSummary.AggregationList.Add` | report/analysis/shared/load_summary.py:102-134 | find or create and append, on objects, is insertion into the grouping; no other aggregation changes |
| `MemoryResults.ConvertMemoryResults` | orchestrate/shared/csv.py:147-163 | memory text to rows, failing exactly on a malformed line or a missing peak |
| `MemoryResults.LoadMemoryResults` | report/analysis/shared/load_summary.py:46-84 | baselines go to their own list in order, workloads are grouped by identity |
| `MemoryResults.LoadedPeaks` | report/analysis/shared/load_summary.py:53-84 | every workload line has a case under its identity and every baseline line has a baseline case |
| `MemoryResults.LoadedIsMemoryText` | report/analysis/shared/load_summary.py:46-84 | of a memory text: an identity has an aggregation exactly if it has a workload line; its k-th case has run k and the integer part of the peak_rss_bytes of its k-th line; the baseline list holds the baseline lines in order, likewise |
| `EnergySummary.EnergyCase.AddMeasurement` | report/model/energy/energy_case.py:29-30 | one entry of the dictionary is set, the samples are unchanged |
| `EnergySummary.EnergyCase.AddSample` | report/model/energy/energy_case.py:37-38 | the sample is appended, the measurements are unchanged |
| `EnergySummary.EnergyAggregation.FindCase` | report/model/energy/energy_aggregation.py:21-27 | the first case of a run, or none exactly if there is none |
| `EnergySummary.EnergyList.FindEnergyAggregation` | report/model/benchmark_summary.py:57-71 | the first aggregation with an identity, or none exactly if there is none |
| `EnergySummary.EnergyList.AddRow` | report/analysis/shared/load_summary.py:168-197 | a workload row is inserted into the objects as into the grouping; a new case gets the row's flag, every other case keeps showing its rows |
| `EnergySummary.BaselineList.AddRow` | report/analysis/shared/load_summary.py:155-166 | a baseline row joins its run's case or a new one, and no case gets a flag |
| `EnergySummary.LoadEnergyResults` | report/analysis/shared/load_summary.py:138-197 | baseline samples are grouped by run and workload samples by identity and run, in separate objects |
| `EnergySummary.LoadingConserves` | report/analysis/shared/load_summary.py:145-197 | every row lands in exactly one case, order within a case is kept, keys are unique at both levels and no case is empty |
| `CpabeRsaSchedule.CasesOfMembers` | orchestrate/orchestrate_cpabe_rsa.py:347-394 | exactly the listed values with the listed operations are scheduled |
| `CpabeRsaSchedule.TimingIsScheduled` | orchestrate/orchestrate_cpabe_rsa.py:347-394 | the timing schedule has exactly the CP-ABE attribute counts and RSA key sizes with Encrypt and Decrypt and the subscriber counts with Encrypt, algorithm names written out |
| `CpabeRsaSchedule.EnergyIsScheduled` | orchestrate/orchestrate_cpabe_rsa.py:284-306 | the energy schedule has the same but for one RSA case, the decryption with the fixed key size |
| `CpabeRsaSchedule.MemoryIsScheduled` | orchestrate/orchestrate_cpabe_rsa.py:175-196 | the memory schedule has the baseline and the memory operations of the energy schedule's cases |
| `CpabeRsaSchedule.PrintedIsRead` | orchestrate/shared/csv.py:41-89 | the reader finds exactly the planned cases, in order, whatever other lines are printed between them |
| `CpabeRsaSchedule.OrchestrateTiming` | orchestrate/orchestrate_cpabe_rsa.py:343-396 | the timing file holds the planned result lines, each case's runs in order |
| `CpabeRsaSchedule.RunMemoryCase` | orchestrate/orchestrate_cpabe_rsa.py:139-172 | a process per run, whose result lines follow one another |
| `CpabeRsaSchedule.OrchestrateMemory` | orchestrate/orchestrate_cpabe_rsa.py:175-196 | the memory file holds the planned result lines, baseline first and each case's runs in order |
| `CpabeRsaSchedule.WriteSamples` | orchestrate/shared/csv.py:166-178 | one row per sample, each with the same run data |
| `CpabeRsaSchedule.RunEnergyCase` | orchestrate/orchestrate_cpabe_rsa.py:199-257 | windows for runs 1..n with their own samples, throttled exactly on exit code 3; any code but 0 and 3 ends the measurement |
| `CpabeRsaSchedule.OrchestrateEnergy` | orchestrate/orchestrate_cpabe_rsa.py:260-306 | the energy file holds the baseline windows and then every scheduled case's windows |
| `CpabeRsaReport.TimingScheduled` | report/analysis/cpabe_rsa_report.py:151-174 | the timing schedule contains exactly the cases the report asks for |
| `CpabeRsaReport.CasesReport` | orchestrate/shared/csv.py:115-137 | every loaded case has exactly the measurements its identity reports |
| `CpabeRsaReport.TimingLookupsSucceed` | report/analysis/cpabe_rsa_report.py:164-174 | every timing aggregation asked for exists with at least one case and every measurement the report averages |
| `CpabeRsaReport.MemoryLookupsSucceed` | report/analysis/cpabe_rsa_report.py:192-200 | every memory aggregation asked for and the memory baselines exist |
| `CpabeRsaReport.EnergyLookupsSucceed` | report/analysis/cpabe_rsa_report.py:183-191 | every energy aggregation asked for exists with samples in each of its cases, and so do the baselines |
| `EnergyFlags.CaseIsItsWindows` | report/analysis/shared/load_summary.py:190-197 | a loaded case holds the windows of its identity and run, one after another |
| `EnergyFlags.FlagKeptExactlyWhen` | report/analysis/shared/load_summary.py:192-195 | all rows of a case carry the stored flag exactly when its windows do not include both a throttled and an unthrottled one |
| `EnergyFlags.ScheduleRepeats` | orchestrate/orchestrate_cpabe_rsa.py:284-306 | the energy schedule repeats a case exactly when the attribute counts or the subscriber counts repeat a value |
| `EnergyFlags.FileMeasuredOnce` | orchestrate/orchestrate_cpabe_rsa.py:260-306 | when neither list repeats a value, no identity and run is measured twice in any energy file of the parameters |
| `EnergyFlags.StoredFlagIsTheRuns` | report/analysis/shared/load_summary.py:190-197 | then the case of every window of the file holds exactly that window's samples, and the stored flag is the window's |
| `EnergyFlags.FlagAlwaysKeptExactlyWhen` | report/analysis/shared/load_summary.py:190-197 | for all parameters: every energy file they can give, whatever throttles, keeps the flags of all its cases exactly when there is no run or neither list repeats a value |
| `EnergyFlags.RepeatedValueKeepsFirstFlag` | report/analysis/shared/load_summary.py:190-197 | the failing input: an energy file of one run with an attribute count listed twice, whose second encryption alone throttled; the loaded case mixes both windows and keeps the first flag |
| `CpabeRsaAnalysis.LoadSummary` | report/analysis/shared/load_summary.py:25-43 | the whole load: it fails exactly on a timing or memory row that does not load, and otherwise all lists show their own files |
| `CpabeRsaAnalysis.FindAll` | report/analysis/cpabe_rsa_report.py:166-174 | one lookup per parameter value, null exactly where the list has no such identity |
| `CpabeRsaAnalysis.FindAllEnergy` | report/analysis/cpabe_rsa_report.py:183-191 | the same for the energy list |
| `CpabeRsaAnalysis.MatchIsFound` | report/analysis/shared/statistics.py:52-59 | the search for the timing of an energy aggregation succeeds exactly when one of the case's timing lookups found that identity |
| `CpabeRsaAnalysis.DeterminedIsAnswered` | report/analysis/shared/statistics.py:50-67 | with the case's timings averaged, an energy can be computed exactly when its aggregation was found with samples in every case and its timing was found |
| `CpabeRsaAnalysis.AnalyzeCase` | report/analysis/cpabe_rsa_report.py:89-119 | the latency, energy and memory results of a case are those of the groups of its identities, flags included; it succeeds exactly when all these groups answer |
| `CpabeRsaAnalysis.AddExtras` | report/analysis/cpabe_rsa_report.py:208-226 | a case gets exactly its extra measurements, and fails exactly when one cannot be averaged |
| `CpabeRsaAnalysis.AnalyzeCases` | report/analysis/cpabe_rsa_report.py:163-228 | the loop over the cases succeeds exactly when every case is answered, and reports every case |
| `CpabeRsaAnalysis.Analyze` | report/analysis/cpabe_rsa_report.py:163-320 | loop, baseline, fixed key and the ends of the lists: the exact success condition, and the fixed key's figures are those of its own groups |
| `CpabeRsaAnalysis.CreateReport` | report/analysis/cpabe_rsa_report.py:145-320 | load and analysis together |
| `CpabeRsaAnalysis.ReportSucceedsExactlyWhen` | report/analysis/cpabe_rsa_report.py:163-320 | on what the orchestrator produces, all loads, lookups, matches, statistics and indices succeed exactly when there is a run, both scaling lists are non-empty and the fixed key size is listed |
| `CpabeRsaAnalysis.LatencyIsOfText` | report/analysis/cpabe_rsa_report.py:166-174 | the runs a latency is averaged over are the identity's lines of the text in order, as many as it has |
| `CpabeRsaAnalysis.EnergyOfPowers` | report/analysis/shared/statistics.py:152-168 | the energy of a value: its mean is the mean of its runs' mean powers less the idle power, times the mean latency of the same value in seconds; its interval is that of the powers times the absolute value of that latency |
| `CounterLifecycle.TrimsToWord` | benchmark/cpu/cpu_perf.go:130 | trimming leaves a word exactly when the text is that word between padding, as for the acknowledgement |
| `CounterLifecycle.ParsePerfCycles` | benchmark/cpu/cpu_perf.go:157-187 | the scan computes the number on the first cycles line, none without one |
| `CounterLifecycle.CyclesOfText` | benchmark/cpu/cpu_perf.go:159-187 | in terms of the text: the first line with three comma-separated fields whose third, trimmed, begins with cycles gives the decimal number its first field shows, if it is below 2^64, and none otherwise, whatever the other lines and fields are |
| `CounterLifecycle.NoCyclesInText` | benchmark/cpu/cpu_perf.go:159-187 | a text without such a line gives none |
| `CounterLifecycle.AcknowledgedIs` | benchmark/cpu/cpu_perf.go:125-133 | a reply acknowledges exactly when it is ack between zero bytes and white space |
| `CounterLifecycle.SpaceIs` | benchmark/cpu/cpu_perf.go:167-175 | the white space that is trimmed is the blank and the characters from the tab to the carriage return |
| `CounterLifecycle.FirstCyclesLineCounts` | benchmark/cpu/cpu_perf.go:159-180 | lines before the first cycles line and after it change nothing |
| `CounterLifecycle.CPUPerf.SendControl` | benchmark/cpu/cpu_perf.go:119-135 | success exactly when the trimmed reply is ack |
| `CounterLifecycle.CPUPerf.Abort` | benchmark/cpu/cpu_perf.go:109-117 | from a running counter: waited for once, both pipe ends closed once |
| `CounterLifecycle.CPUPerf.Stop` | benchmark/cpu/cpu_perf.go:81-107 | whatever fails inside, everything is released exactly once; a value comes back exactly when every step succeeded |
| `CounterLifecycle.NewCPUPerf` | benchmark/cpu/cpu_perf.go:25-74 | a failed opening closes everything it opened once and leaves no process; a successful one has closed the child's two ends and nothing else |
| `CounterLifecycle.BenchmarkPublisher` | benchmark/macro/runner.go:150-185 | on every path every opened pipe end is closed exactly once and a started process is waited for exactly once; success exactly when every step succeeded |
| `CounterLifecycle.BenchmarkSubscriber` | benchmark/macro/runner.go:187-240 | the same for the subscriber's workload with its five steps |
| `AxisTicks.FloorLog10` | report/render/chart.py:702 | the exponent e with 10^e <= x < 10^(e+1), for every positive x |
| `AxisTicks.FloorLogUnique` | report/render/chart.py:702 | no other exponent has that property |
| `AxisTicks.NiceLinearStep` | report/render/chart.py:701-709 | for a positive minimum m the step is the least value 1, 2, 2.5, 5 or 10 times an integer power of ten that is not below m, and below 2m; otherwise a ValueError |
| `AxisTicks.LeastNiceIsUnique` | report/render/chart.py:702-707 | there is only one such value |
| `AxisTicks.LinearTicks` | report/render/chart.py:712-724 | the ticks are the multiples between the rounded bounds of the least nice step that is not below the label spacing's share of the range |
| `AxisTicks.TicksAreTheMultiples` | report/render/chart.py:721-724 | a multiple of the step is a tick exactly when it lies inside the bounds |
| `AxisTicks.TicksAreReadable` | report/render/chart.py:717-720 | neighbouring ticks are drawn at least the label spacing apart and less than twice that |
| `AxisTicks.TickCount` | report/render/chart.py:717-724 | the number of ticks is bounded above and below by the axis height over the label spacing |
| `AxisTicks.LogarithmicCandidates` | report/render/chart.py:727-742 | the candidates are strictly increasing without duplicates and hold exactly the values of the exponent range inside the bounds |
| `AxisTicks.NoCandidateIsMissed` | report/render/chart.py:732-740 | the exponent range misses nothing: a mantissa times any integer power of ten inside the bounds is a candidate |
| `AxisTicks.CheckReadable` | report/render/chart.py:686-698 | readable exactly when no two neighbours are drawn closer than the spacing |
| `AxisTicks.LogarithmicTicks` | report/render/chart.py:745-764 | the ticks are those of the finest tier that is non-empty and readable, or of the coarsest when none is |
| `AxisTicks.TiersAreFiner` | report/render/chart.py:559-604 | each later mantissa tier has more mantissas and no wider widest gap than the one before it, so the finest tier is the last |
| `AxisTicks.FinestHaveHalves` | report/render/chart.py:565-604 | the finest tier has every half from 1 to 9.5, the one before it every half up to 8 |
| `AxisTicks.BoundsAtEnds` | report/render/chart.py:686-698 | an axis draws its lower bound at its start and its upper bound at its full height |
| `Throttling.FormatBits` | benchmark/thermal/throttling.go:54-63 | the binary digit i places from the right is 1 exactly when bit i is set, and bits beyond the digits are clear |
| `Throttling.FormatLength` | benchmark/thermal/throttling.go:57-59 | a number fits k binary digits exactly when it is below 2^k |
| `Throttling.ReadingOfOutput` | benchmark/thermal/throttling.go:45-52 | the number printed after throttled=0x is read back, whatever white space surrounds the output |
| `Throttling.ReadingIs` | benchmark/thermal/throttling.go:45-52 | of any output: the reading is a number exactly when what follows the first =0x of the trimmed text is its hexadecimal digits, in either case, and it has 64 bits |
| `Throttling.Reverse` | benchmark/thermal/throttling.go:61-65 | in-place reversal: index i holds what index length-1-i held |
| `Throttling.DecodeBits` | benchmark/thermal/throttling.go:54-67 | twenty characters, the i-th 1 exactly when bit i is set; a panic exactly from 2^20 on |
| `Throttling.ReadThrottleBits` | benchmark/thermal/throttling.go:37-68 | nothing when the command failed or printed no number, its bits otherwise |
| `Throttling.ThrottleWatch.IsThrottled` | benchmark/thermal/throttling.go:25-35 | throttled exactly when both readings are readable and bit 3 is set in one of them |
| `Throttling.SoftLimitBit` | benchmark/thermal/throttling.go:10-12 | bit 3 is set exactly when the number modulo 16 is at least 8 |
| `PowerMeter.BigEndianRoundTrip` | utility/python/um24c/um24c.py:36-38 | a number encoded in k bytes decodes to itself if it fits |
| `PowerMeter.DecodeFrame` | utility/python/um24c/um24c.py:36-40 | the three fields of a frame decode to what was encoded at their offsets, whatever the other bytes are |
| `PowerMeter.Read` | utility/python/um24c/um24c.py:23-40 | independent of how the stream is cut into chunks: the first 130 bytes are the frame and no more is taken; closing is reported exactly when fewer arrive |
| `TemplateReport.BuildReport` | report/render/html.py:79-80 | the loop performs the replacements in dictionary order |
| `TemplateReport.SequentialIsSimultaneous` | report/render/html.py:70-85 | while no slot gets a value that mentions another placeholder, replacing one after another equals substituting all at once, also for values that are renderings of templates and may mention their own mark |
| `TemplateReport.PlainIsSimultaneous` | report/render/html.py:70-85 | in particular for all values in which no mark can start, single braces included; then the order never matters |
| `TemplateReport.OrderDoesNotMatter` | report/render/html.py:79-80 | while no slot gets a value that mentions another placeholder, every order of the dictionary gives the same report |
| `TemplateReport.MentionMatters` | report/render/html.py:79-80 | a slot whose value mentions another placeholder, whose value does not mention it back, makes two orders give different reports |
| `TemplateReport.OrderMattersExactlyWhen` | report/render/html.py:79-80 | for every template: without placeholders that mention each other, the order matters exactly when some slot gets a value that mentions another placeholder |
| `TemplateReport.OrderNeverMattersExactlyWhen` | report/render/html.py:79-80 | for every dictionary: the order matters for no template exactly when no value mentions another placeholder |
| `TemplateReport.MutualMentionsCanMeet` | report/render/html.py:79-80 | the exclusion is needed: two placeholders that mention each other can give the same report in both orders |

## Left out

- SSH, SCP, Docker, process spawning, sockets and files: pipes are queues or text, files are sequences of rows, and what another process returns is a parameter.
- The Paho client, TLS set-up, certificates and broker scripts: only at-most-once delivery and the replaced subscription are kept.
- AES, ASCON, RSA, CP-ABE, JSON and CBOR, and the eight scenarios built from them: publishing and consuming a message either succeeds or fails.
- Message identifiers: a message is its round and its position in the round's list instead of a random UUID.
- Failures: a failing step leaves the process where it is and ends it; which error text it returns is not modelled. A callback that would block on the full result channel is delivered later instead.
- Wall-clock time: publish intervals, timeouts, the cooldown poll and the meter's sampling loop with its deadline; timestamps are arbitrary non-negative numbers.
- The t quantile and the square root: an interval is the quantile times the root of the squared standard error of the values, which is modelled; the two functions are parameters, and theorems on the size of an interval assume a positive quantile and a root that is one.
- Regressions, and the divisions that follow them in the report: they are calls into scipy and arithmetic on its results.
- Floating-point rounding and overflow, and the decimal places the writers keep.
- Text of numbers: whether a field reads as a float is given with the field. Python's underscores and non-ASCII digits in integers, and Go's Unicode white space, are not accepted by the model.
- CSV quoting and headers: rows are typed values.
- Matplotlib drawing, HTML tables, labels, colours and number formatting: only tick positions and placeholder substitution are modelled. An axis is its height, its label spacing and where it draws a value.
- Environment parsing, path constants, command wrappers, provisioning programs and the clock check.
- The other three Python orchestrators and reports: they have the shape of the CP-ABE/RSA pair.
- A benchmark process that exits with an error: the orchestrator raises and no report is built.
- Macro cycle statistics: one mean of one list each.
- Distinct payload sizes and message identifiers are not derived from the environment file and the UUID generator.
