/** The macro result loader: summary objects filled in place from the publisher's rows by
    find-or-create, then completed from the subscriber's rows by lookup. */
module MacroSummary {
  import opened Wrappers
  import opened Protocol
  import opened Grouping
  import opened MacroRows

  type Identifier = Option<Message>

  /** The dictionary a row loop builds: later rows of one message replace earlier ones. */
  function Timestamps(entries: seq<Entry>): map<Identifier, int> {
    if entries == [] then map[]
    else
      var last := entries[|entries| - 1];
      Timestamps(entries[..|entries| - 1])[last.id := last.time]
  }

  /** The cycle total a row loop leaves behind. */
  function LastCycles(entries: seq<Entry>): nat {
    if entries == [] then 0 else entries[|entries| - 1].cycles
  }

  class MacroCase {
    const repetition: nat
    var publisherCycles: nat
    var subscriberCycles: nat
    var publisherTimestamps: map<Identifier, int>
    var subscriberTimestamps: map<Identifier, int>

    constructor (repetition: nat)
      ensures this.repetition == repetition && Shows(Group(repetition, []), [])
    {
      this.repetition := repetition;
      publisherCycles, subscriberCycles := 0, 0;
      publisherTimestamps, subscriberTimestamps := map[], map[];
    }

    /** The case holds exactly these publisher and subscriber rows. */
    ghost predicate Shows(published: Group<nat, Entry>, arrived: seq<Entry>)
      reads this
    {
      && repetition == published.key
      && publisherCycles == LastCycles(published.items) && publisherTimestamps == Timestamps(published.items)
      && subscriberCycles == LastCycles(arrived) && subscriberTimestamps == Timestamps(arrived)
    }

    method RecordPublisher(e: Entry, ghost published: Group<nat, Entry>, ghost arrived: seq<Entry>)
      requires Shows(published, arrived)
      modifies this
      ensures Shows(Group(published.key, published.items + [e]), arrived)
    {
      publisherCycles := e.cycles;
      publisherTimestamps := publisherTimestamps[e.id := e.time];
      assert (published.items + [e])[..|published.items|] == published.items;
    }

    method RecordSubscriber(e: Entry, ghost published: Group<nat, Entry>, ghost arrived: seq<Entry>)
      requires Shows(published, arrived)
      modifies this
      ensures Shows(published, arrived + [e])
    {
      subscriberCycles := e.cycles;
      subscriberTimestamps := subscriberTimestamps[e.id := e.time];
      assert (arrived + [e])[..|arrived|] == arrived;
    }
  }

  class MacroAggregation {
    const algorithm: string
    const payloadSize: int
    var cases: seq<MacroCase>

    constructor (algorithm: string, payloadSize: int)
      ensures this.algorithm == algorithm && this.payloadSize == payloadSize && cases == []
    {
      this.algorithm := algorithm;
      this.payloadSize := payloadSize;
      cases := [];
    }

    /** One case per group, each showing its rows and the subscriber's rows with its labels. */
    ghost predicate Shows(scenario: string, group: Group<int, Group<nat, Entry>>, arrived: seq<MacroRow>)
      reads this, cases
    {
      && algorithm == scenario && payloadSize == group.key && |cases| == |group.items|
      && forall k :: 0 <= k < |cases| ==>
           cases[k].Shows(group.items[k], Select(Select(arrived, group.key), group.items[k].key))
    }

    /** A new case without rows. */
    method Append(scenario: string, repetition: nat, ghost group: Group<int, Group<nat, Entry>>)
      returns (added: MacroCase)
      requires Shows(scenario, group, [])
      modifies this
      ensures Shows(scenario, Group(group.key, group.items + [Group(repetition, [])]), [])
      ensures cases == old(cases) + [added] && fresh(added)
    {
      added := new MacroCase(repetition);
      cases := cases + [added];
    }

    /** The first case of a repetition, or null. */
    method FindCase(repetition: nat) returns (found: MacroCase?, ghost at: int)
      ensures -1 <= at < |cases| && (found == null <==> at == -1)
      ensures found != null ==> found == cases[at] && found.repetition == repetition
      ensures forall j :: 0 <= j < (if at == -1 then |cases| else at) ==> cases[j].repetition != repetition
    {
      var i := 0;
      while i < |cases|
        invariant 0 <= i <= |cases|
        invariant forall j :: 0 <= j < i ==> cases[j].repetition != repetition
      {
        if cases[i].repetition == repetition {
          return cases[i], i;
        }
        i := i + 1;
      }
      return null, -1;
    }
  }

  /** What each case has to show: the publisher's rows as grouped so far, and the subscriber's rows so far. */
  type Grouped = seq<Group<int, Group<nat, Entry>>>

  class BenchmarkSummary {
    var macroAggregations: seq<MacroAggregation>
    ghost var Repr: set<object>
    /** Where each case is listed. */
    ghost var place: map<MacroCase, (nat, nat)>

    constructor ()
      ensures Valid() && fresh(Repr) && macroAggregations == []
    {
      macroAggregations := [];
      Repr := {this};
      place := map[];
    }

    /** The objects listed belong to the summary, and none is listed twice, in one list or in two. */
    ghost predicate Valid()
      reads this, Repr
      ensures Valid() ==> this in Repr
    {
      && this in Repr
      && (forall i :: 0 <= i < |macroAggregations| ==>
            macroAggregations[i] in Repr && forall k :: 0 <= k < |macroAggregations[i].cases| ==>
              macroAggregations[i].cases[k] in Repr)
      && (forall i, j :: 0 <= i < j < |macroAggregations| ==> macroAggregations[i] != macroAggregations[j])
      && (forall i, k | 0 <= i < |macroAggregations| && 0 <= k < |macroAggregations[i].cases| ::
            macroAggregations[i].cases[k] in place && place[macroAggregations[i].cases[k]] == (i, k))
    }

    /** The summary holds one aggregation per group and one case per inner group, each showing its rows. */
    ghost predicate Shows(scenario: string, groups: Grouped, arrived: seq<MacroRow>)
      requires Valid()
      reads this, Repr
    {
      && |macroAggregations| == |groups|
      && forall i :: 0 <= i < |groups| ==> macroAggregations[i].Shows(scenario, groups[i], arrived)
    }

    /** The labels of what is shown. */
    lemma Labels(scenario: string, groups: Grouped, arrived: seq<MacroRow>)
      requires Valid() && Shows(scenario, groups, arrived)
      ensures |macroAggregations| == |groups|
      ensures forall i :: 0 <= i < |groups| ==>
                && macroAggregations[i] in Repr
                && macroAggregations[i].algorithm == scenario && macroAggregations[i].payloadSize == groups[i].key
                && |macroAggregations[i].cases| == |groups[i].items|
                && forall k :: 0 <= k < |groups[i].items| ==>
                     && macroAggregations[i].cases[k] in Repr
                     && macroAggregations[i].cases[k].repetition == groups[i].items[k].key
    {
    }

    /** The first aggregation of a scenario and payload size, or null. */
    method FindMacroAggregation(algorithm: string, payloadSize: int) returns (found: MacroAggregation?, ghost at: int)
      ensures -1 <= at < |macroAggregations| && (found == null <==> at == -1)
      ensures found != null ==>
                && found == macroAggregations[at]
                && found.algorithm == algorithm && found.payloadSize == payloadSize
      ensures forall j :: 0 <= j < (if at == -1 then |macroAggregations| else at) ==>
                !(macroAggregations[j].algorithm == algorithm && macroAggregations[j].payloadSize == payloadSize)
    {
      var i := 0;
      while i < |macroAggregations|
        invariant 0 <= i <= |macroAggregations|
        invariant forall j :: 0 <= j < i ==>
                    !(macroAggregations[j].algorithm == algorithm && macroAggregations[j].payloadSize == payloadSize)
      {
        if macroAggregations[i].algorithm == algorithm && macroAggregations[i].payloadSize == payloadSize {
          return macroAggregations[i], i;
        }
        i := i + 1;
      }
      return null, -1;
    }

    method AppendAggregation(scenario: string, payloadSize: int, ghost groups: Grouped)
      returns (aggregation: MacroAggregation)
      requires Valid() && Shows(scenario, groups, [])
      modifies this
      ensures Valid() && Shows(scenario, groups + [Group(payloadSize, [])], [])
      ensures macroAggregations == old(macroAggregations) + [aggregation]
      ensures fresh(Repr - old(Repr))
    {
      aggregation := new MacroAggregation(scenario, payloadSize);
      assert aggregation.Shows(scenario, Group(payloadSize, []), []);
      hide MacroAggregation.Shows, MacroCase.Shows;
      macroAggregations := macroAggregations + [aggregation];
      Repr := Repr + {aggregation};
    }

    method AppendCase(scenario: string, aggregation: MacroAggregation, ghost i: nat, repetition: nat,
                      ghost groups: Grouped)
      returns (added: MacroCase)
      requires Valid() && Shows(scenario, groups, [])
      requires i < |macroAggregations| && macroAggregations[i] == aggregation
      modifies aggregation, this`Repr, this`place
      ensures Valid() && macroAggregations == old(macroAggregations)
      ensures Shows(scenario, groups[i := Group(groups[i].key, groups[i].items + [Group(repetition, [])])], [])
      ensures aggregation.cases == old(aggregation.cases) + [added]
      ensures fresh(Repr - old(Repr))
    {
      hide MacroAggregation.Shows, MacroCase.Shows;
      added := aggregation.Append(scenario, repetition, groups[i]);
      place := place[added := (i, |aggregation.cases| - 1)];
      Repr := Repr + {added};
    }

    method RecordPublisher(scenario: string, entry: Entry, item: MacroCase, ghost i: nat, ghost k: nat,
                           ghost groups: Grouped)
      requires Valid() && Shows(scenario, groups, [])
      requires i < |macroAggregations| && k < |macroAggregations[i].cases| && macroAggregations[i].cases[k] == item
      modifies item
      ensures Valid()
      ensures var g := groups[i].items[k];
              Shows(scenario, groups[i := Group(groups[i].key,
                                                groups[i].items[k := Group(g.key, g.items + [entry])])], [])
    {
      item.RecordPublisher(entry, groups[i].items[k], []);
    }

    method FindOrCreateAggregation(scenario: string, payloadSize: int, ghost groups: Grouped)
      returns (aggregation: MacroAggregation)
      requires Valid() && Shows(scenario, groups, [])
      modifies this
      ensures Valid() && Shows(scenario, WithGroup(groups, payloadSize), []) && fresh(Repr - old(Repr))
      ensures macroAggregations[IndexOf(groups, payloadSize)] == aggregation && aggregation in Repr
    {
      var found, at := FindMacroAggregation(scenario, payloadSize);
      FoundAt(groups, payloadSize, at);
      if found == null {
        aggregation := AppendAggregation(scenario, payloadSize, groups);
      } else {
        aggregation := found;
      }
    }

    method FindOrCreateCase(scenario: string, aggregation: MacroAggregation, ghost i: nat, repetition: nat,
                            ghost groups: Grouped)
      returns (item: MacroCase)
      requires Valid() && Shows(scenario, groups, [])
      requires i < |macroAggregations| && macroAggregations[i] == aggregation
      modifies aggregation, this`Repr, this`place
      ensures Valid() && Shows(scenario, groups[i := Group(groups[i].key, WithGroup(groups[i].items, repetition))], [])
      ensures macroAggregations == old(macroAggregations) && fresh(Repr - old(Repr))
      ensures aggregation.cases[IndexOf(groups[i].items, repetition)] == item && item in Repr
    {
      var found, at := aggregation.FindCase(repetition);
      FoundAt(groups[i].items, repetition, at);
      if found == null {
        item := AppendCase(scenario, aggregation, i, repetition, groups);
      } else {
        item := found;
        assert groups[i := Group(groups[i].key, groups[i].items)] == groups;
      }
    }

    /** One iteration of the publisher loop: find or create the aggregation, find or create the case, record. */
    method AddPublisherRow(scenario: string, row: MacroRow, ghost groups: Grouped)
      requires Valid() && Shows(scenario, groups, [])
      modifies Repr
      ensures Valid() && Shows(scenario, InsertNested(groups, row.0, row.1.0, row.1.1), [])
      ensures fresh(Repr - old(Repr))
    {
      ghost var i, now := IndexOf(groups, row.0), WithGroup(groups, row.0);
      var aggregation := FindOrCreateAggregation(scenario, row.0, groups);
      ghost var k := IndexOf(now[i].items, row.1.0);
      var item := FindOrCreateCase(scenario, aggregation, i, row.1.0, now);
      RecordPublisher(scenario, row.1.1, item, i, k, now[i := Group(now[i].key, WithGroup(now[i].items, row.1.0))]);
      RecordedRow(groups, row);
    }

    method RecordSubscriber(scenario: string, row: MacroRow, item: MacroCase, ghost i: nat, ghost k: nat,
                            ghost groups: Grouped, ghost arrived: seq<MacroRow>)
      requires Valid() && Shows(scenario, groups, arrived)
      requires i < |macroAggregations| && k < |macroAggregations[i].cases| && macroAggregations[i].cases[k] == item
      requires ArrivesAt(groups, arrived, row, i, k)
      modifies item
      ensures Valid() && Shows(scenario, groups, arrived + [row])
    {
      hide Select, MacroCase.Shows;
      item.RecordSubscriber(row.1.1, groups[i].items[k], Select(Select(arrived, groups[i].key), groups[i].items[k].key));
    }

    /** One iteration of the subscriber loop.  A row whose case does not exist ends the load. */
    method AddSubscriberRow(scenario: string, row: MacroRow, ghost groups: Grouped, ghost arrived: seq<MacroRow>)
      returns (ok: bool)
      requires Valid() && Shows(scenario, groups, arrived) && DistinctNested(groups)
      modifies Repr
      ensures Valid() && Repr == old(Repr)
      ensures ok <==> HasCase(groups, row.0, row.1.0)
      ensures ok ==> Shows(scenario, groups, arrived + [row])
    {
      Labels(scenario, groups, arrived);
      hide Valid, Shows, ArrivesAt;
      var aggregation, i := FindMacroAggregation(scenario, row.0);
      FoundAt(groups, row.0, i);
      if aggregation == null {
        return false;
      }
      var item, k := aggregation.FindCase(row.1.0);
      FoundAt(groups[i].items, row.1.0, k);
      if item == null {
        return false;
      }
      ok := true;
      ArrivedRows(groups, arrived, row, i, k);
      RecordSubscriber(scenario, row, item, i, k, groups, arrived);
    }
  }

  predicate HasCase(groups: Grouped, payloadSize: int, repetition: nat) {
    var i := Find(groups, payloadSize);
    i >= 0 && Find(groups[i].items, repetition) >= 0
  }

  predicate DistinctNested(groups: Grouped) {
    DistinctKeys(groups) && forall i :: 0 <= i < |groups| ==> DistinctKeys(groups[i].items)
  }

  /** One more subscriber row shows in case `k` of aggregation `i` and nowhere else. */
  ghost predicate ArrivesAt(groups: Grouped, arrived: seq<MacroRow>, row: MacroRow, i: nat, k: nat) {
    forall j, l :: 0 <= j < |groups| && 0 <= l < |groups[j].items| ==>
      Select(Select(arrived + [row], groups[j].key), groups[j].items[l].key) ==
      if j == i && l == k then Select(Select(arrived, groups[j].key), groups[j].items[l].key) + [row.1.1]
      else Select(Select(arrived, groups[j].key), groups[j].items[l].key)
  }

  lemma ArrivedRows(groups: Grouped, arrived: seq<MacroRow>, row: MacroRow, i: nat, k: nat)
    requires DistinctNested(groups) && i < |groups| && groups[i].key == row.0
    requires k < |groups[i].items| && groups[i].items[k].key == row.1.0
    ensures ArrivesAt(groups, arrived, row, i, k)
  {
    forall j, l | 0 <= j < |groups| && 0 <= l < |groups[j].items|
      ensures groups[j].key == row.0 && groups[j].items[l].key == row.1.0 <==> j == i && l == k
    {
    }
    forall j, l | 0 <= j < |groups| && 0 <= l < |groups[j].items|
      ensures Select(Select(arrived + [row], groups[j].key), groups[j].items[l].key) ==
              if j == i && l == k then Select(Select(arrived, groups[j].key), groups[j].items[l].key) + [row.1.1]
              else Select(Select(arrived, groups[j].key), groups[j].items[l].key)
    {
      ArrivedRow(arrived, row, groups[j].key, groups[j].items[l].key);
    }
  }

  lemma ArrivedRow(arrived: seq<MacroRow>, row: MacroRow, payloadSize: int, repetition: nat)
    ensures Select(Select(arrived + [row], payloadSize), repetition) ==
            if payloadSize == row.0 && repetition == row.1.0
            then Select(Select(arrived, payloadSize), repetition) + [row.1.1]
            else Select(Select(arrived, payloadSize), repetition)
  {
    SelectAppend(arrived, row, payloadSize);
    if payloadSize == row.0 {
      SelectAppend(Select(arrived, payloadSize), row.1, repetition);
    }
  }

  lemma GroupByNestedDistinct(rows: seq<MacroRow>)
    ensures DistinctNested(GroupByNested(rows))
  {
    var groups := GroupBy(rows);
    forall i | 0 <= i < |groups|
      ensures DistinctKeys(GroupBy(groups[i].items))
    {
    }
  }

  lemma CollectNestedNext(rows: seq<MacroRow>, n: nat)
    requires n < |rows|
    ensures CollectNested(rows[..n + 1]) ==
            InsertNested(CollectNested(rows[..n]), rows[n].0, rows[n].1.0, rows[n].1.1)
  {
    assert rows[..n + 1][..n] == rows[..n];
  }

  method LoadPublisherRows(rows: seq<MacroRow>, scenario: string) returns (summary: BenchmarkSummary)
    ensures fresh(summary) && fresh(summary.Repr) && summary.Valid()
    ensures summary.Shows(scenario, GroupByNested(rows), [])
  {
    summary := new BenchmarkSummary();
    assert summary.Shows(scenario, CollectNested(rows[..0]), []);
    hide BenchmarkSummary.Valid, BenchmarkSummary.Shows;
    for n := 0 to |rows|
      invariant fresh(summary) && fresh(summary.Repr) && summary.Valid()
      invariant summary.Shows(scenario, CollectNested(rows[..n]), [])
    {
      summary.AddPublisherRow(scenario, rows[n], CollectNested(rows[..n]));
      CollectNestedNext(rows, n);
    }
    assert rows[..|rows|] == rows;
    CollectNestedIsGroupBy(rows);
  }

  predicate AllHaveCases(groups: Grouped, rows: seq<MacroRow>) {
    forall n :: 0 <= n < |rows| ==> HasCase(groups, rows[n].0, rows[n].1.0)
  }

  method LoadSubscriberRows(summary: BenchmarkSummary, rows: seq<MacroRow>, scenario: string, ghost groups: Grouped)
    returns (ok: bool)
    requires summary.Valid() && summary.Shows(scenario, groups, []) && DistinctNested(groups)
    modifies summary.Repr
    ensures summary.Valid() && summary.Repr == old(summary.Repr)
    ensures ok <==> AllHaveCases(groups, rows)
    ensures ok ==> summary.Shows(scenario, groups, rows)
  {
    hide BenchmarkSummary.Valid, BenchmarkSummary.Shows, HasCase, DistinctNested;
    assert rows[..0] == [];
    for n := 0 to |rows|
      invariant summary.Valid() && summary.Repr == old(summary.Repr)
      invariant summary.Shows(scenario, groups, rows[..n])
      invariant forall m :: 0 <= m < n ==> HasCase(groups, rows[m].0, rows[m].1.0)
    {
      ok := summary.AddSubscriberRow(scenario, rows[n], groups, rows[..n]);
      if !ok {
        return;
      }
      assert rows[..n + 1] == rows[..n] + [rows[n]];
    }
    assert rows[..|rows|] == rows;
    ok := true;
  }

  /** The whole load.  It fails exactly when some subscriber row has no publisher row of the same payload
      and repetition; otherwise the summary shows all rows, grouped. */
  method LoadMacroSummary(publisherRows: seq<MacroRow>, subscriberRows: seq<MacroRow>, scenario: string)
    returns (summary: BenchmarkSummary, ok: bool)
    ensures fresh(summary) && fresh(summary.Repr) && summary.Valid()
    ensures ok <==> AllHaveCases(GroupByNested(publisherRows), subscriberRows)
    ensures ok ==> summary.Shows(scenario, GroupByNested(publisherRows), subscriberRows)
  {
    summary := LoadPublisherRows(publisherRows, scenario);
    GroupByNestedDistinct(publisherRows);
    ok := LoadSubscriberRows(summary, subscriberRows, scenario, GroupByNested(publisherRows));
  }
}
