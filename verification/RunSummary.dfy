/** The timing and memory lists of the report's summary: one aggregation object per identity, found or
    created row by row, with a growing list of cases. */
module RunSummary {
  import opened Wrappers
  import opened Grouping
  import opened BenchmarkText

  class Aggregation<Case> {
    const identity: Identity
    var cases: seq<Case>

    constructor (identity: Identity)
      ensures this.identity == identity && cases == []
    {
      this.identity := identity;
      cases := [];
    }
  }

  /** One list of aggregations of the summary. */
  class AggregationList<Case> {
    var aggregations: seq<Aggregation<Case>>

    constructor ()
      ensures Shows([])
    {
      aggregations := [];
    }

    /** One aggregation per group, in order, no object listed twice, each holding its group's cases. */
    ghost predicate Shows(groups: seq<Group<Identity, Case>>)
      reads this, aggregations
    {
      && |aggregations| == |groups|
      && (forall i :: 0 <= i < |groups| ==>
            aggregations[i].identity == groups[i].key && aggregations[i].cases == groups[i].items)
      && (forall i, j :: 0 <= i < j < |aggregations| ==> aggregations[i] != aggregations[j])
    }

    /** The first aggregation with an identity, or null. */
    method Find(identity: Identity, ghost groups: seq<Group<Identity, Case>>) returns (found: Aggregation?<Case>)
      requires Shows(groups)
      ensures found == null <==> Grouping.Find(groups, identity) == -1
      ensures found != null ==> found == aggregations[Grouping.Find(groups, identity)]
    {
      var i := 0;
      while i < |aggregations|
        invariant 0 <= i <= |aggregations|
        invariant forall j :: 0 <= j < i ==> groups[j].key != identity
      {
        if aggregations[i].identity == identity {
          FoundAt(groups, identity, i);
          return aggregations[i];
        }
        i := i + 1;
      }
      FoundAt(groups, identity, -1);
      return null;
    }

    /** Find or create the aggregation of an identity and append a case to it. */
    method Add(identity: Identity, item: Case, ghost groups: seq<Group<Identity, Case>>)
      requires Shows(groups)
      modifies this, aggregations
      ensures Shows(Insert(groups, identity, item))
      ensures forall i :: 0 <= i < |aggregations| ==> aggregations[i] in old(aggregations) || fresh(aggregations[i])
    {
      var aggregation := Find(identity, groups);
      if aggregation == null {
        aggregation := new Aggregation(identity);
        aggregations := aggregations + [aggregation];
      }
      aggregation.cases := aggregation.cases + [item];
    }
  }
}
