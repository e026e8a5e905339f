/** The energy loader: power samples find their workload's aggregation and their run's case, or the
    baseline's case, and are appended to it in place. */
module EnergySummary {
  import opened Wrappers
  import opened Grouping
  import opened BenchmarkText

  datatype EnergySample = EnergySample(elapsed: real, voltage: real, current: real, power: real)

  const THROTTLED := "throttled"

  /** A workload row: its identity, its run, the flag of the run and one sample. */
  type EnergyRow = (Identity, (nat, (real, EnergySample)))

  /** A baseline row: its run and one sample. */
  type BaselineRow = (nat, EnergySample)

  function SamplesOf(items: seq<(real, EnergySample)>): seq<EnergySample> {
    seq(|items|, i requires 0 <= i < |items| => items[i].1)
  }

  class EnergyCase {
    const run: nat
    var measurements: map<string, real>
    var samples: seq<EnergySample>

    constructor (run: nat)
      ensures this.run == run && measurements == map[] && samples == []
    {
      this.run := run;
      measurements := map[];
      samples := [];
    }

    /** The case holds the samples of these rows, with the flag of the first; a case about to get its first
        sample may hold any flag. */
    ghost predicate Shows(group: Group<nat, (real, EnergySample)>)
      reads this
    {
      && run == group.key && samples == SamplesOf(group.items)
      && (group.items != [] ==> measurements == map["throttled" := group.items[0].0])
    }

    /** A baseline case holds samples and no flag. */
    ghost predicate ShowsBaseline(group: Group<nat, EnergySample>)
      reads this
    {
      run == group.key && samples == group.items && measurements == map[]
    }

    method AddMeasurement(name: string, value: real)
      modifies this`measurements
      ensures measurements == old(measurements)[name := value]
    {
      measurements := measurements[name := value];
    }

    method AddSample(sample: EnergySample)
      modifies this`samples
      ensures samples == old(samples) + [sample]
    {
      samples := samples + [sample];
    }
  }

  class EnergyAggregation {
    const identity: Identity
    var cases: seq<EnergyCase>

    constructor (identity: Identity)
      ensures this.identity == identity && cases == []
    {
      this.identity := identity;
      cases := [];
    }

    /** One case per group, each showing its rows. */
    ghost predicate Shows(group: Group<Identity, Group<nat, (real, EnergySample)>>)
      reads this, cases
    {
      && identity == group.key && |cases| == |group.items|
      && forall k :: 0 <= k < |cases| ==> cases[k].Shows(group.items[k])
    }

    /** A new case without samples. */
    method Append(run: nat, throttled: real, ghost group: Group<Identity, Group<nat, (real, EnergySample)>>)
      returns (added: EnergyCase)
      requires Shows(group)
      modifies this
      ensures Shows(Group(group.key, group.items + [Group(run, [])]))
      ensures cases == old(cases) + [added] && fresh(added)
      ensures added.measurements == map[THROTTLED := throttled]
    {
      added := new EnergyCase(run);
      added.AddMeasurement(THROTTLED, throttled);
      cases := cases + [added];
    }

    /** The first case of a run, or null. */
    method FindCase(run: nat) returns (found: EnergyCase?, ghost at: int)
      ensures -1 <= at < |cases| && (found == null <==> at == -1)
      ensures found != null ==> found == cases[at] && found.run == run
      ensures found == null <==> forall item <- cases :: item.run != run
      ensures forall j :: 0 <= j < (if at == -1 then |cases| else at) ==> cases[j].run != run
    {
      var i := 0;
      while i < |cases|
        invariant 0 <= i <= |cases|
        invariant forall j :: 0 <= j < i ==> cases[j].run != run
      {
        if cases[i].run == run {
          return cases[i], i;
        }
        i := i + 1;
      }
      return null, -1;
    }
  }

  /** What the aggregations have to show. */
  type Grouped = seq<Group<Identity, Group<nat, (real, EnergySample)>>>

  /** The list of energy aggregations of the summary. */
  class EnergyList {
    var energyAggregations: seq<EnergyAggregation>
    ghost var Repr: set<object>
    /** Where each case is listed. */
    ghost var place: map<EnergyCase, (nat, nat)>

    constructor ()
      ensures Valid() && fresh(Repr) && Shows([])
    {
      energyAggregations := [];
      Repr := {this};
      place := map[];
    }

    /** The objects listed belong to the list, and none is listed twice, in one aggregation or in two. */
    ghost predicate Valid()
      reads this, Repr
      ensures Valid() ==> this in Repr
    {
      && this in Repr
      && (forall i :: 0 <= i < |energyAggregations| ==>
            energyAggregations[i] in Repr && forall k :: 0 <= k < |energyAggregations[i].cases| ==>
              energyAggregations[i].cases[k] in Repr)
      && (forall i, j :: 0 <= i < j < |energyAggregations| ==> energyAggregations[i] != energyAggregations[j])
      && (forall i, k | 0 <= i < |energyAggregations| && 0 <= k < |energyAggregations[i].cases| ::
            energyAggregations[i].cases[k] in place && place[energyAggregations[i].cases[k]] == (i, k))
    }

    /** One aggregation per group and one case per inner group, each showing its rows. */
    ghost predicate Shows(groups: Grouped)
      requires Valid()
      reads this, Repr
    {
      && |energyAggregations| == |groups|
      && forall i :: 0 <= i < |groups| ==> energyAggregations[i].Shows(groups[i])
    }

    /** The first aggregation with an identity, or null. */
    method FindEnergyAggregation(identity: Identity) returns (found: EnergyAggregation?, ghost at: int)
      ensures -1 <= at < |energyAggregations| && (found == null <==> at == -1)
      ensures found != null ==> found == energyAggregations[at] && found.identity == identity
      ensures found == null <==> forall aggregation <- energyAggregations :: aggregation.identity != identity
      ensures forall j :: 0 <= j < (if at == -1 then |energyAggregations| else at) ==>
                energyAggregations[j].identity != identity
    {
      var i := 0;
      while i < |energyAggregations|
        invariant 0 <= i <= |energyAggregations|
        invariant forall j :: 0 <= j < i ==> energyAggregations[j].identity != identity
      {
        if energyAggregations[i].identity == identity {
          return energyAggregations[i], i;
        }
        i := i + 1;
      }
      return null, -1;
    }

    method AppendAggregation(identity: Identity, ghost groups: Grouped) returns (aggregation: EnergyAggregation)
      requires Valid() && Shows(groups)
      modifies this
      ensures Valid() && Shows(groups + [Group(identity, [])])
      ensures energyAggregations == old(energyAggregations) + [aggregation]
      ensures fresh(Repr - old(Repr))
    {
      aggregation := new EnergyAggregation(identity);
      energyAggregations := energyAggregations + [aggregation];
      Repr := Repr + {aggregation};
    }

    method AppendCase(aggregation: EnergyAggregation, ghost i: nat, run: nat, throttled: real, ghost groups: Grouped)
      returns (added: EnergyCase)
      requires Valid() && Shows(groups)
      requires i < |energyAggregations| && energyAggregations[i] == aggregation
      modifies aggregation, this`Repr, this`place
      ensures Valid() && energyAggregations == old(energyAggregations)
      ensures Shows(groups[i := Group(groups[i].key, groups[i].items + [Group(run, [])])])
      ensures aggregation.cases == old(aggregation.cases) + [added]
      ensures added.measurements == map[THROTTLED := throttled]
      ensures fresh(Repr - old(Repr))
    {
      hide EnergyAggregation.Shows, EnergyCase.Shows;
      added := aggregation.Append(run, throttled, groups[i]);
      place := place[added := (i, |aggregation.cases| - 1)];
      Repr := Repr + {added};
    }

    method FindOrCreateAggregation(identity: Identity, ghost groups: Grouped) returns (aggregation: EnergyAggregation)
      requires Valid() && Shows(groups)
      modifies this
      ensures Valid() && Shows(WithGroup(groups, identity)) && fresh(Repr - old(Repr))
      ensures energyAggregations[IndexOf(groups, identity)] == aggregation && aggregation in Repr
    {
      var found, at := FindEnergyAggregation(identity);
      FoundAt(groups, identity, at);
      if found == null {
        aggregation := AppendAggregation(identity, groups);
      } else {
        aggregation := found;
      }
    }

    method FindOrCreateCase(aggregation: EnergyAggregation, ghost i: nat, run: nat, throttled: real,
                            ghost groups: Grouped)
      returns (item: EnergyCase)
      requires Valid() && Shows(groups)
      requires i < |energyAggregations| && energyAggregations[i] == aggregation
      modifies aggregation, this`Repr, this`place
      ensures Valid() && Shows(groups[i := Group(groups[i].key, WithGroup(groups[i].items, run))])
      ensures energyAggregations == old(energyAggregations) && fresh(Repr - old(Repr))
      ensures aggregation.cases[IndexOf(groups[i].items, run)] == item && item in Repr
      ensures Find(groups[i].items, run) == -1 ==> item.measurements == map[THROTTLED := throttled]
    {
      var found, at := aggregation.FindCase(run);
      FoundAt(groups[i].items, run, at);
      if found == null {
        item := AppendCase(aggregation, i, run, throttled, groups);
      } else {
        item := found;
        assert groups[i := Group(groups[i].key, groups[i].items)] == groups;
      }
    }

    method RecordSample(throttled: real, sample: EnergySample, item: EnergyCase, ghost i: nat, ghost k: nat,
                        ghost groups: Grouped)
      requires Valid() && Shows(groups)
      requires i < |energyAggregations| && k < |energyAggregations[i].cases| && energyAggregations[i].cases[k] == item
      requires groups[i].items[k].items == [] ==> item.measurements == map[THROTTLED := throttled]
      modifies item
      ensures Valid()
      ensures var g := groups[i].items[k];
              Shows(groups[i := Group(groups[i].key,
                                      groups[i].items[k := Group(g.key, g.items + [(throttled, sample)])])])
    {
      item.AddSample(sample);
      assert item.Shows(Group(groups[i].items[k].key, groups[i].items[k].items + [(throttled, sample)]));
    }

    /** One workload row. */
    method AddRow(row: EnergyRow, ghost groups: Grouped)
      requires Valid() && Shows(groups) && NoEmptyCase(groups)
      modifies Repr
      ensures Valid() && Shows(InsertNested(groups, row.0, row.1.0, row.1.1))
      ensures fresh(Repr - old(Repr))
    {
      hide Valid, Shows;
      ghost var i, now := IndexOf(groups, row.0), WithGroup(groups, row.0);
      var aggregation := FindOrCreateAggregation(row.0, groups);
      ghost var k := IndexOf(now[i].items, row.1.0);
      InBounds(now);
      var item := FindOrCreateCase(aggregation, i, row.1.0, row.1.1.0, now);
      ghost var ready := now[i := Group(now[i].key, WithGroup(now[i].items, row.1.0))];
      InBounds(ready);
      RecordSample(row.1.1.0, row.1.1.1, item, i, k, ready);
      RecordedRow(groups, row);
    }

    lemma InBounds(groups: Grouped)
      requires Valid() && Shows(groups)
      ensures |energyAggregations| == |groups|
      ensures forall i :: 0 <= i < |groups| ==> |energyAggregations[i].cases| == |groups[i].items|
      ensures forall i :: 0 <= i < |groups| ==> energyAggregations[i] in Repr
      ensures forall i, k :: 0 <= i < |groups| && 0 <= k < |groups[i].items| ==> energyAggregations[i].cases[k] in Repr
    {
    }
  }

  ghost predicate NoEmptyCase(groups: Grouped) {
    forall i, k :: 0 <= i < |groups| && 0 <= k < |groups[i].items| ==> groups[i].items[k].items != []
  }

  /** The list of baseline cases of the summary. */
  class BaselineList {
    var cases: seq<EnergyCase>

    constructor ()
      ensures Shows([]) && cases == []
    {
      cases := [];
    }

    ghost predicate Shows(groups: seq<Group<nat, EnergySample>>)
      reads this, cases
    {
      && |cases| == |groups|
      && (forall k :: 0 <= k < |groups| ==> cases[k].ShowsBaseline(groups[k]))
      && (forall k, l :: 0 <= k < l < |cases| ==> cases[k] != cases[l])
    }

    /** One baseline row: find or create the case of its run, add the sample. */
    method AddRow(row: BaselineRow, ghost groups: seq<Group<nat, EnergySample>>)
      requires Shows(groups)
      modifies this, cases
      ensures Shows(Insert(groups, row.0, row.1))
      ensures forall k :: 0 <= k < |cases| ==> cases[k] in old(cases) || fresh(cases[k])
    {
      var i := 0;
      while i < |cases| && cases[i].run != row.0
        invariant 0 <= i <= |cases|
        invariant forall j :: 0 <= j < i ==> groups[j].key != row.0
      {
        i := i + 1;
      }
      FoundAt(groups, row.0, if i == |cases| then -1 else i);
      if i == |cases| {
        var created := new EnergyCase(row.0);
        cases := cases + [created];
      }
      cases[i].AddSample(row.1);
    }
  }

  // ---- the file ----------------------------------------------------------------------------

  /** A row of the energy file: its row type decides which columns count. */
  datatype CsvRow =
    | Baseline(run: nat, sample: EnergySample)
    | Workload(identity: Identity, run: nat, throttled: real, sample: EnergySample)

  function BaselineRows(rows: seq<CsvRow>): seq<BaselineRow> {
    if rows == [] then []
    else
      var last := rows[|rows| - 1];
      BaselineRows(rows[..|rows| - 1]) + if last.Baseline? then [(last.run, last.sample)] else []
  }

  function WorkloadRows(rows: seq<CsvRow>): seq<EnergyRow> {
    if rows == [] then []
    else
      var last := rows[|rows| - 1];
      WorkloadRows(rows[..|rows| - 1])
      + if last.Workload? then [(last.identity, (last.run, (last.throttled, last.sample)))] else []
  }

  lemma NextRow(rows: seq<CsvRow>, n: nat)
    requires n < |rows|
    ensures var row := rows[n];
            match row
            case Baseline(run, sample) =>
              && Collect(BaselineRows(rows[..n + 1])) == Insert(Collect(BaselineRows(rows[..n])), run, sample)
              && WorkloadRows(rows[..n + 1]) == WorkloadRows(rows[..n])
            case Workload(id, run, throttled, sample) =>
              && CollectNested(WorkloadRows(rows[..n + 1])) ==
                 InsertNested(CollectNested(WorkloadRows(rows[..n])), id, run, (throttled, sample))
              && BaselineRows(rows[..n + 1]) == BaselineRows(rows[..n])
  {
    assert rows[..n + 1][..n] == rows[..n];
    var b, w := BaselineRows(rows[..n]), WorkloadRows(rows[..n]);
    match rows[n] {
      case Baseline(run, sample) =>
        assert (b + [(run, sample)])[..|b|] == b;
      case Workload(id, run, throttled, sample) =>
        assert (w + [(id, (run, (throttled, sample)))])[..|w|] == w;
    }
  }

  lemma NoCaseIsEmpty(rows: seq<EnergyRow>)
    ensures NoEmptyCase(CollectNested(rows))
  {
    CollectNestedIsGroupBy(rows);
    var groups := GroupBy(rows);
    forall i, k | 0 <= i < |groups| && 0 <= k < |GroupEach(groups)[i].items|
      ensures GroupEach(groups)[i].items[k].items != []
    {
      SelectSome(groups[i].items, Keys(groups[i].items)[k]);
    }
  }

  /** The loader: baseline samples grouped by run, workload samples grouped by identity and run. */
  method LoadEnergyResults(rows: seq<CsvRow>) returns (baselines: BaselineList, list: EnergyList)
    ensures baselines.Shows(GroupBy(BaselineRows(rows)))
    ensures list.Valid() && list.Shows(GroupByNested(WorkloadRows(rows)))
  {
    baselines := new BaselineList();
    list := new EnergyList();
    hide BaselineList.Shows, EnergyList.Valid, EnergyList.Shows, Insert, InsertNested, Collect, CollectNested;
    assert Collect(BaselineRows(rows[..0])) == [] && CollectNested(WorkloadRows(rows[..0])) == [] by {
      NothingLoaded(rows[..0]);
    }
    for n := 0 to |rows|
      invariant fresh(baselines) && forall k :: 0 <= k < |baselines.cases| ==> fresh(baselines.cases[k])
      invariant fresh(list) && fresh(list.Repr)
      invariant baselines !in list.Repr && forall k :: 0 <= k < |baselines.cases| ==> baselines.cases[k] !in list.Repr
      invariant baselines.Shows(Collect(BaselineRows(rows[..n])))
      invariant list.Valid() && list.Shows(CollectNested(WorkloadRows(rows[..n])))
    {
      NextRow(rows, n);
      match rows[n] {
        case Baseline(run, sample) =>
          baselines.AddRow((run, sample), Collect(BaselineRows(rows[..n])));
        case Workload(id, run, throttled, sample) =>
          NoCaseIsEmpty(WorkloadRows(rows[..n]));
          list.AddRow((id, (run, (throttled, sample))), CollectNested(WorkloadRows(rows[..n])));
      }
    }
    assert rows[..|rows|] == rows;
    CollectIsGroupBy(BaselineRows(rows));
    CollectNestedIsGroupBy(WorkloadRows(rows));
  }

  lemma NothingLoaded(rows: seq<CsvRow>)
    requires rows == []
    ensures Collect(BaselineRows(rows)) == [] && CollectNested(WorkloadRows(rows)) == []
  {
  }

  // ---- conservation ------------------------------------------------------------------------

  function NestedSizes<K, R, V>(groups: seq<Group<K, Group<R, V>>>): nat {
    if groups == [] then 0 else NestedSizes(groups[..|groups| - 1]) + Sizes(groups[|groups| - 1].items)
  }

  lemma {:induction false} GroupEachConserves<K, R, V>(groups: seq<Group<K, (R, V)>>)
    ensures NestedSizes(GroupEach(groups)) == Sizes(groups)
  {
    if groups != [] {
      var n := |groups| - 1;
      GroupEachConserves(groups[..n]);
      assert GroupEach(groups)[..n] == GroupEach(groups[..n]);
      CollectConserves(groups[n].items);
      CollectIsGroupBy(groups[n].items);
    }
  }

  lemma {:induction false} RowTypesCoverRows(rows: seq<CsvRow>)
    ensures |BaselineRows(rows)| + |WorkloadRows(rows)| == |rows|
  {
    if rows != [] {
      RowTypesCoverRows(rows[..|rows| - 1]);
    }
  }

  /** The samples of one workload run, in file order. */
  function RunRows(rows: seq<CsvRow>, identity: Identity, run: nat): seq<(real, EnergySample)> {
    Select<nat, (real, EnergySample)>(Select(WorkloadRows(rows), identity), run)
  }

  lemma OuterConserves(w: seq<EnergyRow>)
    ensures var groups := GroupByNested(w);
            NestedSizes(groups) == |w| && DistinctKeys(groups) && |groups| == |GroupBy(w)|
  {
    CollectConserves(w);
    CollectIsGroupBy(w);
    GroupEachConserves(GroupBy(w));
  }

  /** No sample is lost, duplicated or reordered: the cases hold as many samples as the file has rows, keys
      are unique at both levels, and each case holds exactly the rows of its identity and run, in order. */
  lemma LoadingConserves(rows: seq<CsvRow>)
    ensures var baselines, groups := GroupBy(BaselineRows(rows)), GroupByNested(WorkloadRows(rows));
            && Sizes(baselines) + NestedSizes(groups) == |rows|
            && DistinctKeys(baselines) && DistinctKeys(groups)
            && (forall i :: 0 <= i < |baselines| ==>
                  baselines[i].items == Select(BaselineRows(rows), baselines[i].key) && baselines[i].items != [])
            && (forall i :: 0 <= i < |groups| ==> DistinctKeys(groups[i].items) && groups[i].items != [])
            && (forall i, k :: 0 <= i < |groups| && 0 <= k < |groups[i].items| ==>
                  CaseHolds(rows, groups[i].key, groups[i].items[k]))
  {
    hide GroupBy, GroupByNested, Collect, Sizes, NestedSizes, Select, RunRows, DistinctKeys, CaseHolds;
    var b, w := BaselineRows(rows), WorkloadRows(rows);
    RowTypesCoverRows(rows);
    CollectConserves(b);
    CollectIsGroupBy(b);
    OuterConserves(w);
    var groups := GroupByNested(w);
    forall i | 0 <= i < |groups|
      ensures DistinctKeys(groups[i].items) && groups[i].items != []
      ensures forall k :: 0 <= k < |groups[i].items| ==> CaseHolds(rows, groups[i].key, groups[i].items[k])
    {
      InnerConserves(rows, i);
    }
  }

  /** A case holds exactly the rows of its run, at least one. */
  ghost predicate CaseHolds(rows: seq<CsvRow>, identity: Identity, group: Group<nat, (real, EnergySample)>) {
    group.items == RunRows(rows, identity, group.key) && group.items != []
  }

  lemma InnerConserves(rows: seq<CsvRow>, i: nat)
    requires i < |GroupBy(WorkloadRows(rows))|
    ensures var g := GroupByNested(WorkloadRows(rows))[i];
            && DistinctKeys(g.items) && g.items != []
            && forall k :: 0 <= k < |g.items| ==> CaseHolds(rows, g.key, g.items[k])
  {
    hide Select, Keys, Collect;
    var w := WorkloadRows(rows);
    var outer := GroupBy(w)[i];
    CollectConserves(w);
    CollectIsGroupBy(w);
    CollectConserves(outer.items);
    CollectIsGroupBy(outer.items);
    assert outer.items[0].0 in Keys(outer.items);
  }
}
