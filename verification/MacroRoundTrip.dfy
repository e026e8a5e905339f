/** From a finished protocol run to the report: what both endpoints recorded is what the loader holds. */
module MacroRoundTrip {
  import opened Wrappers
  import opened RoundArithmetic
  import opened Protocol
  import opened ProtocolInvariant
  import opened ProtocolSafety
  import opened Grouping
  import opened ResultArena
  import opened MacroRows
  import opened MacroSummary

  ghost predicate DistinctSizes(c: Config) {
    forall i, j :: 0 <= i < j < |c.payloadSizes| ==> c.payloadSizes[i] != c.payloadSizes[j]
  }

  ghost predicate FullWindows(c: Config, contents: seq<RunResult>) {
    && |contents| == c.Slots()
    && forall k :: 0 <= k < |contents| ==> |contents[k].window| == c.messageCount
  }

  lemma RepetitionsWellFormed(c: Config, contents: seq<RunResult>, p: nat)
    requires FullWindows(c, contents) && p < |c.payloadSizes| && c.messageCount > 0 && c.runs > 0
    ensures var reps := Repetitions(c, contents, p, c.runs); reps != [] && DistinctKeys(reps) && NonEmpty(reps)
  {
    RepetitionsShape(c, contents, p, c.runs);
    var reps := Repetitions(c, contents, p, c.runs);
    forall r | 0 <= r < |reps|
      ensures reps[r].key == r + 1 && |reps[r].items| == c.messageCount
    {
    }
  }

  /** Loading what one endpoint wrote gives back its nested structure: one group per payload, in order,
      each with one group per repetition 1..Runs, each with exactly the recorded entries. */
  lemma LoadedIsNested(c: Config, contents: seq<RunResult>)
    requires FullWindows(c, contents) && DistinctSizes(c) && c.messageCount > 0 && c.runs > 0
    ensures GroupByNested(Written(c, contents, c.Slots())) == Nested(c, contents)
  {
    var groups := Nested(c, contents);
    forall i | 0 <= i < |groups|
      ensures groups[i].items != [] && DistinctKeys(groups[i].items) && NonEmpty(groups[i].items)
    {
      RepetitionsWellFormed(c, contents, i);
    }
    WrittenIsNested(c, contents);
    GroupByFlattenNested(groups);
  }

  // ---- the subscriber side of the join -----------------------------------------------------

  lemma {:induction false} SelectContains<K, V>(rows: seq<(K, V)>, n: nat)
    requires n < |rows|
    ensures exists m :: 0 <= m < |Select(rows, rows[n].0)| && Select(rows, rows[n].0)[m] == rows[n].1
  {
    var rest, last := rows[..|rows| - 1], rows[|rows| - 1];
    var selected := Select(rows, rows[n].0);
    if n == |rows| - 1 {
      assert selected[|selected| - 1] == last.1;
    } else {
      SelectContains(rest, n);
      var before := Select(rest, rest[n].0);
      var m :| 0 <= m < |before| && before[m] == rest[n].1;
      assert selected[m] == rows[n].1;
    }
  }

  lemma FindOwn<K, V>(rows: seq<(K, V)>, n: nat)
    requires n < |rows|
    ensures var i := Find(GroupBy(rows), rows[n].0);
            i >= 0 && GroupBy(rows)[i] == Group(rows[n].0, Select(rows, rows[n].0))
  {
    FindInGroupBy(rows, rows[n].0);
  }

  /** A row has a case among the groups made from its own rows. */
  lemma OwnCase(rows: seq<MacroRow>, n: nat)
    requires n < |rows|
    ensures HasCase(GroupByNested(rows), rows[n].0, rows[n].1.0)
  {
    var groups, payloadSize := GroupBy(rows), rows[n].0;
    FindOwn(rows, n);
    FindSameKeys(groups, GroupEach(groups), payloadSize);
    SelectContains(rows, n);
    var own := Select(rows, payloadSize);
    var m :| 0 <= m < |own| && own[m] == rows[n].1;
    FindOwn(own, m);
  }

  /** Equally labelled groups have the same cases. */
  lemma SameCases(a: Grouped, b: Grouped, payloadSize: int, repetition: nat)
    requires |a| == |b| && forall i :: 0 <= i < |a| ==> a[i].key == b[i].key && |a[i].items| == |b[i].items|
    requires forall i, k :: 0 <= i < |a| && 0 <= k < |a[i].items| ==> a[i].items[k].key == b[i].items[k].key
    ensures HasCase(a, payloadSize, repetition) == HasCase(b, payloadSize, repetition)
  {
    FindSameKeys(a, b, payloadSize);
    var i := Find(a, payloadSize);
    if i >= 0 {
      FindSameKeys(a[i].items, b[i].items, repetition);
    }
  }

  lemma NestedLabels(c: Config, contents: seq<RunResult>, p: nat)
    requires |contents| == c.Slots() && p < |c.payloadSizes|
    ensures |Nested(c, contents)| == |c.payloadSizes|
    ensures var g := Nested(c, contents)[p];
            && g.key == c.payloadSizes[p] && |g.items| == c.runs
            && forall r :: 0 <= r < c.runs ==> g.items[r] == Group(r + 1, Entries(contents[SlotIndex(c, p, r)]))
  {
    RepetitionsShape(c, contents, p, c.runs);
  }

  lemma SameLabels(c: Config, published: seq<RunResult>, arrived: seq<RunResult>, payloadSize: int, repetition: nat)
    requires |published| == |arrived| == c.Slots()
    ensures HasCase(Nested(c, published), payloadSize, repetition) == HasCase(Nested(c, arrived), payloadSize, repetition)
  {
    var a, b := Nested(c, published), Nested(c, arrived);
    forall p | 0 <= p < |c.payloadSizes|
      ensures a[p].key == b[p].key && |a[p].items| == |b[p].items|
      ensures forall k :: 0 <= k < |a[p].items| ==> a[p].items[k].key == b[p].items[k].key
    {
      NestedLabels(c, published, p);
      NestedLabels(c, arrived, p);
    }
    SameCases(a, b, payloadSize, repetition);
  }

  /** The subscriber-side lookups never miss. */
  lemma LookupsNeverMiss(c: Config, published: seq<RunResult>, arrived: seq<RunResult>)
    requires FullWindows(c, published) && FullWindows(c, arrived) && DistinctSizes(c)
    requires c.messageCount > 0 && c.runs > 0
    ensures AllHaveCases(GroupByNested(Written(c, published, c.Slots())), Written(c, arrived, c.Slots()))
  {
    hide Written, Nested, HasCase, Config.Slots;
    var groups, rows := GroupByNested(Written(c, published, c.Slots())), Written(c, arrived, c.Slots());
    LoadedIsNested(c, published);
    LoadedIsNested(c, arrived);
    forall n | 0 <= n < |rows|
      ensures HasCase(groups, rows[n].0, rows[n].1.0)
    {
      OwnCase(rows, n);
      SameLabels(c, published, arrived, rows[n].0, rows[n].1.0);
    }
  }

  /** The rows of one payload size and repetition, in file order. */
  function RowsOf(rows: seq<MacroRow>, payloadSize: int, repetition: nat): seq<Entry> {
    Select<nat, Entry>(Select(rows, payloadSize), repetition)
  }

  lemma NestedItems<K, R, V>(rows: seq<(K, (R, V))>, groups: seq<Group<K, Group<R, V>>>, i: nat, k: nat)
    requires GroupByNested(rows) == groups && i < |groups| && k < |groups[i].items|
    ensures Select(Select(rows, groups[i].key), groups[i].items[k].key) == groups[i].items[k].items
  {
    var outer := GroupBy(rows);
    assert GroupEach(outer)[i] == groups[i];
  }

  /** Selecting a payload and a repetition from an endpoint's rows gives that run's entries. */
  lemma SelectedRun(c: Config, contents: seq<RunResult>, p: nat, r: nat)
    requires FullWindows(c, contents) && DistinctSizes(c) && c.messageCount > 0
    requires p < |c.payloadSizes| && r < c.runs
    ensures RowsOf(Written(c, contents, c.Slots()), c.payloadSizes[p], r + 1) ==
            Entries(contents[SlotIndex(c, p, r)])
  {
    hide Written, Nested, Config.Slots, Select, GroupByNested, SlotIndex, Entries, DistinctSizes;
    LoadedIsNested(c, contents);
    NestedLabels(c, contents, p);
    NestedItems(Written(c, contents, c.Slots()), Nested(c, contents), p, r);
  }

  // ---- the dictionaries of a case ----------------------------------------------------------

  ghost predicate DistinctEntries(entries: seq<Entry>) {
    forall i, j :: 0 <= i < j < |entries| ==> entries[i].id != entries[j].id
  }

  function IdsOf(entries: seq<Entry>): set<Identifier> {
    set i | 0 <= i < |entries| :: entries[i].id
  }

  lemma IdsOfNext(entries: seq<Entry>)
    requires entries != []
    ensures IdsOf(entries) == IdsOf(entries[..|entries| - 1]) + {entries[|entries| - 1].id}
  {
    var n := |entries| - 1;
    assert entries == entries[..n] + [entries[n]];
    assert forall i :: 0 <= i < n ==> entries[..n][i] == entries[i];
  }

  /** The dictionary has the identifiers of the rows as its keys, each once. */
  lemma {:induction false} TimestampKeys(entries: seq<Entry>)
    ensures Timestamps(entries).Keys == IdsOf(entries)
    ensures DistinctEntries(entries) ==> |Timestamps(entries)| == |entries|
  {
    if entries != [] {
      var n := |entries| - 1;
      TimestampKeys(entries[..n]);
      IdsOfNext(entries);
      var before, last := Timestamps(entries[..n]), entries[n];
      assert Timestamps(entries).Keys == before.Keys + {last.id};
      if DistinctEntries(entries) {
        assert last.id !in IdsOf(entries[..n]);
        assert |before.Keys + {last.id}| == |before.Keys| + 1;
      }
    }
  }

  /** With distinct identifiers the dictionary holds every row's own time. */
  lemma {:induction false} TimestampOf(entries: seq<Entry>, i: nat)
    requires DistinctEntries(entries) && i < |entries|
    ensures entries[i].id in Timestamps(entries) && Timestamps(entries)[entries[i].id] == entries[i].time
  {
    var n := |entries| - 1;
    if i < n {
      TimestampOf(entries[..n], i);
    }
  }

  lemma SameMembers(a: seq<Entry>, b: seq<Entry>, i: nat) returns (j: nat)
    requires multiset(a) == multiset(b) && i < |a|
    ensures j < |b| && b[j] == a[i]
  {
    assert a[i] in multiset(b);
    j :| 0 <= j < |b| && b[j] == a[i];
  }

  /** A dictionary has the entries of another one whose rows include its own. */
  lemma TimestampsAgree(a: seq<Entry>, b: seq<Entry>)
    requires DistinctEntries(a) && DistinctEntries(b) && multiset(a) == multiset(b)
    ensures forall id <- IdsOf(a) ::
              id in Timestamps(a) && id in Timestamps(b) && Timestamps(a)[id] == Timestamps(b)[id]
  {
    hide Timestamps, DistinctEntries;
    forall id | id in IdsOf(a)
      ensures id in Timestamps(a) && id in Timestamps(b) && Timestamps(a)[id] == Timestamps(b)[id]
    {
      var i :| 0 <= i < |a| && a[i].id == id;
      var j := SameMembers(a, b, i);
      TimestampOf(a, i);
      TimestampOf(b, j);
    }
  }

  /** So the order in which messages arrived does not matter. */
  lemma TimestampsOrderFree(a: seq<Entry>, b: seq<Entry>)
    requires DistinctEntries(a) && DistinctEntries(b) && multiset(a) == multiset(b)
    ensures Timestamps(a) == Timestamps(b)
  {
    TimestampKeys(a);
    TimestampKeys(b);
    TimestampsAgree(a, b);
    TimestampsAgree(b, a);
    hide Timestamps, IdsOf, DistinctEntries;
    assert Timestamps(a).Keys == Timestamps(b).Keys;
  }

  /** The identifiers of a round's messages. */
  function RoundIds(round: nat, n: nat): set<Identifier> {
    set i | 0 <= i < n :: Some(Message(round, i))
  }

  /** The dictionary of a run that handled its whole round, in whatever order. */
  lemma WholeRound(samples: seq<Sample>, round: nat, n: nat, cycles: nat)
    requires Arrangement(samples, round, n)
    ensures var times := Timestamps(Entries(RunResult(Recorded(samples), cycles)));
            && times.Keys == RoundIds(round, n) && |times| == n
            && forall i :: 0 <= i < n ==> Some(samples[i].id) in times && times[Some(samples[i].id)] == samples[i].time
  {
    var entries := Entries(RunResult(Recorded(samples), cycles));
    assert forall i :: 0 <= i < n ==> entries[i] == Entry(Some(samples[i].id), samples[i].time, cycles);
    assert DistinctEntries(entries) by {
      forall i, j | 0 <= i < j < |entries|
        ensures entries[i].id != entries[j].id
      {
        assert samples[i].id != samples[j].id;
      }
    }
    TimestampKeys(entries);
    forall i | 0 <= i < n
      ensures Some(samples[i].id) in Timestamps(entries)
      ensures Timestamps(entries)[Some(samples[i].id)] == samples[i].time
    {
      TimestampOf(entries, i);
    }
    RecordedIds(samples, round, n, entries);
  }

  lemma RecordedIds(samples: seq<Sample>, round: nat, n: nat, entries: seq<Entry>)
    requires Arrangement(samples, round, n) && |entries| == n
    requires forall i :: 0 <= i < n ==> entries[i].id == Some(samples[i].id)
    ensures IdsOf(entries) == RoundIds(round, n)
  {
    forall i | 0 <= i < n
      ensures entries[i].id in RoundIds(round, n)
    {
      assert samples[i].id in Ids(samples);
    }
    forall i | 0 <= i < n
      ensures Some(Message(round, i)) in IdsOf(entries)
    {
      assert Message(round, i) in Ids(samples);
      var k :| 0 <= k < |samples| && samples[k].id == Message(round, i);
      assert entries[k].id == Some(Message(round, i));
    }
  }

  lemma InOrderIsArrangement(samples: seq<Sample>, round: nat, n: nat)
    requires InOrder(samples, round, n)
    ensures Arrangement(samples, round, n)
  {
    forall m <- Published(round, n)
      ensures m in Ids(samples)
    {
      assert samples[m.index] in samples;
    }
  }

  // ---- end to end --------------------------------------------------------------------------

  /** The result list of an endpoint whose windows hold what the protocol recorded, with any cycle totals. */
  ghost predicate Holds(c: Config, contents: seq<RunResult>, results: seq<seq<Sample>>) {
    && |contents| == |results| == c.Slots()
    && forall k :: 0 <= k < |contents| ==> contents[k].window == Recorded(results[k])
  }

  /** An endpoint whose loops recorded the samples of a protocol run holds them in its arena. */
  lemma ArenaHolds(c: Config, contents: seq<RunResult>, outcomes: seq<RoundOutcome>, results: seq<seq<Sample>>)
    requires Outcomes(c, outcomes) && FilledUpTo(c, contents, outcomes, c.Rounds()) && |results| == c.Slots()
    requires forall slot :: 0 <= slot < c.Slots() && c.runs > 0 && c.RoundOf(slot) < c.Rounds() ==>
               outcomes[c.RoundOf(slot)].RoundDone? && outcomes[c.RoundOf(slot)].samples == results[slot]
    ensures Holds(c, contents, results)
  {
    forall slot | 0 <= slot < |contents|
      ensures c.runs > 0 && c.RoundOf(slot) < c.Rounds()
    {
      RunOfSlot(c, slot);
    }
  }

  /** Both endpoints of a closed protocol run. */
  ghost predicate Closed(c: Config, run: seq<Action>, s: State, published: seq<RunResult>, arrived: seq<RunResult>) {
    && Execute(c, run) == Some(s)
    && PublisherPhase(s.publisher.pc) == SubscriberPhase(s.subscriber.pc) == Closing
    && Holds(c, published, s.publisher.results) && Holds(c, arrived, s.subscriber.results)
  }

  lemma ClosedWindows(c: Config, run: seq<Action>, s: State, published: seq<RunResult>, arrived: seq<RunResult>,
                      slot: nat)
    requires Closed(c, run, s, published, arrived) && slot < c.Slots()
    ensures c.runs > 0
    ensures published[slot].window == Recorded(s.publisher.results[slot])
    ensures arrived[slot].window == Recorded(s.subscriber.results[slot])
    ensures Arrangement(s.publisher.results[slot], c.RoundOf(slot), c.messageCount)
    ensures Arrangement(s.subscriber.results[slot], c.RoundOf(slot), c.messageCount)
  {
    ClosedEndpointIsComplete(c, run, s);
    assert SlotWhole(c, s, slot);
    InOrderIsArrangement(s.publisher.results[slot], c.RoundOf(slot), c.messageCount);
    hide Config.Slots, Config.RoundOf, Config.Rounds, InOrder, Arrangement, Execute, Recorded;
  }

  lemma ClosedIsFull(c: Config, run: seq<Action>, s: State, published: seq<RunResult>, arrived: seq<RunResult>)
    requires Closed(c, run, s, published, arrived)
    ensures FullWindows(c, published) && FullWindows(c, arrived)
  {
    forall slot | 0 <= slot < c.Slots()
      ensures |published[slot].window| == |arrived[slot].window| == c.messageCount
    {
      ClosedWindows(c, run, s, published, arrived, slot);
    }
  }

  /** Whatever the interleaving was, loading what both endpoints wrote never misses a case, and gives one
      group per payload size with one case per repetition 1..Runs; the publisher's and the subscriber's
      rows of each case are the ones that run recorded. */
  lemma RoundTrip(c: Config, run: seq<Action>, s: State, published: seq<RunResult>, arrived: seq<RunResult>)
    requires Closed(c, run, s, published, arrived)
    requires DistinctSizes(c) && c.messageCount > 0 && c.runs > 0
    ensures AllHaveCases(GroupByNested(Written(c, published, c.Slots())), Written(c, arrived, c.Slots()))
    ensures GroupByNested(Written(c, published, c.Slots())) == Nested(c, published)
    ensures forall p, r :: 0 <= p < |c.payloadSizes| && 0 <= r < c.runs ==>
              RowsOf(Written(c, arrived, c.Slots()), c.payloadSizes[p], r + 1) ==
              Entries(arrived[SlotIndex(c, p, r)])
  {
    hide Written, Nested, Config.Slots, Closed;
    ClosedIsFull(c, run, s, published, arrived);
    LookupsNeverMiss(c, published, arrived);
    LoadedIsNested(c, published);
    forall p, r | 0 <= p < |c.payloadSizes| && 0 <= r < c.runs
      ensures RowsOf(Written(c, arrived, c.Slots()), c.payloadSizes[p], r + 1) ==
              Entries(arrived[SlotIndex(c, p, r)])
    {
      SelectedRun(c, arrived, p, r);
    }
  }

  /** The dictionary holds exactly the round's messages, each with the time its sample has. */
  ghost predicate CaseTimes(c: Config, slot: nat, times: map<Identifier, int>, samples: seq<Sample>) {
    && c.runs > 0
    && times.Keys == RoundIds(c.RoundOf(slot), c.messageCount)
    && |times| == |samples| == c.messageCount
    && forall i :: 0 <= i < |samples| ==> Some(samples[i].id) in times && times[Some(samples[i].id)] == samples[i].time
  }

  lemma CaseDictionary(c: Config, slot: nat, result: RunResult, samples: seq<Sample>)
    requires c.runs > 0 && c.messageCount > 0
    requires result.window == Recorded(samples) && Arrangement(samples, c.RoundOf(slot), c.messageCount)
    ensures CaseTimes(c, slot, Timestamps(Entries(result)), samples)
    ensures LastCycles(Entries(result)) == result.cycles
  {
    WholeRound(samples, c.RoundOf(slot), c.messageCount, result.cycles);
    assert result == RunResult(Recorded(samples), result.cycles);
  }

  lemma ShownCase(summary: BenchmarkSummary, scenario: string, groups: Grouped, arrived: seq<MacroRow>, p: nat, r: nat)
    requires summary.Valid() && summary.Shows(scenario, groups, arrived)
    requires p < |groups| && r < |groups[p].items|
    ensures |summary.macroAggregations| == |groups| && |summary.macroAggregations[p].cases| == |groups[p].items|
    ensures summary.macroAggregations[p].algorithm == scenario
    ensures summary.macroAggregations[p].payloadSize == groups[p].key
    ensures summary.macroAggregations[p].cases[r].Shows(groups[p].items[r],
                                                        RowsOf(arrived, groups[p].key, groups[p].items[r].key))
  {
  }

  /** What the loaded summary then shows: case `r` of aggregation `p` is repetition r + 1 of its payload size,
      with both cycle totals, and both dictionaries hold the times of exactly that round's messages. */
  lemma ReportedCase(c: Config, run: seq<Action>, s: State, published: seq<RunResult>, arrived: seq<RunResult>,
                     summary: BenchmarkSummary, scenario: string, p: nat, r: nat)
    requires Closed(c, run, s, published, arrived)
    requires DistinctSizes(c) && c.messageCount > 0 && p < |c.payloadSizes| && r < c.runs
    requires summary.Valid() && summary.Shows(scenario, Nested(c, published), Written(c, arrived, c.Slots()))
    ensures |summary.macroAggregations| == |c.payloadSizes| && |summary.macroAggregations[p].cases| == c.runs
    ensures var slot, aggregation := SlotIndex(c, p, r), summary.macroAggregations[p];
            var item := aggregation.cases[r];
            && aggregation.algorithm == scenario && aggregation.payloadSize == c.payloadSizes[p]
            && item.repetition == r + 1
            && item.publisherCycles == published[slot].cycles && item.subscriberCycles == arrived[slot].cycles
            && CaseTimes(c, slot, item.publisherTimestamps, s.publisher.results[slot])
            && CaseTimes(c, slot, item.subscriberTimestamps, s.subscriber.results[slot])
  {
    hide Written, Nested, Config.Slots, Config.Rounds, Config.RoundOf, SlotIndex, RowsOf, Entries, Timestamps,
         LastCycles, CaseTimes, BenchmarkSummary.Valid, BenchmarkSummary.Shows, Execute, Arrangement;
    var slot := SlotIndex(c, p, r);
    ClosedIsFull(c, run, s, published, arrived);
    ClosedWindows(c, run, s, published, arrived, slot);
    NestedLabels(c, published, p);
    SelectedRun(c, arrived, p, r);
    CaseDictionary(c, slot, published[slot], s.publisher.results[slot]);
    CaseDictionary(c, slot, arrived[slot], s.subscriber.results[slot]);
    ShownCase(summary, scenario, Nested(c, published), Written(c, arrived, c.Slots()), p, r);
  }
}
