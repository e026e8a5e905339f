/** Find-or-create grouping, as every result loader does it, against a reference definition.

    A loader scans rows once, looks the row's key up among the groups it has, and appends to that
    group or to a new one.  `Collect` is that scan on values.  `GroupBy` says what it should produce:
    the keys in order of first occurrence, each with all of its rows in input order. */
module Grouping {
  datatype Group<K, V> = Group(key: K, items: seq<V>)

  /** Position of the group with key `k`, or -1. */
  function Find<K(==), V>(groups: seq<Group<K, V>>, k: K): (i: int)
    ensures -1 <= i < |groups|
    ensures 0 <= i ==> groups[i].key == k && forall j :: 0 <= j < i ==> groups[j].key != k
    ensures i == -1 ==> forall j :: 0 <= j < |groups| ==> groups[j].key != k
  {
    if groups == [] then -1
    else if groups[0].key == k then 0
    else
      var i := Find(groups[1..], k);
      if i == -1 then -1 else i + 1
  }

  function Insert<K(==), V>(groups: seq<Group<K, V>>, k: K, v: V): seq<Group<K, V>> {
    var i := Find(groups, k);
    if i == -1 then groups + [Group(k, [v])] else groups[i := Group(k, groups[i].items + [v])]
  }

  function Collect<K(==), V>(rows: seq<(K, V)>): seq<Group<K, V>> {
    if rows == [] then []
    else Insert(Collect(rows[..|rows| - 1]), rows[|rows| - 1].0, rows[|rows| - 1].1)
  }

  // ---- reference definition ----------------------------------------------------------------

  /** The rows with key `k`, in input order. */
  function Select<K(==), V>(rows: seq<(K, V)>, k: K): seq<V> {
    if rows == [] then []
    else
      var rest, last := rows[..|rows| - 1], rows[|rows| - 1];
      Select(rest, k) + if last.0 == k then [last.1] else []
  }

  /** The keys in order of first occurrence. */
  function Keys<K(==), V>(rows: seq<(K, V)>): (keys: seq<K>)
    ensures forall i :: 0 <= i < |rows| ==> rows[i].0 in keys
    ensures forall j :: 0 <= j < |keys| ==> exists i :: 0 <= i < |rows| && rows[i].0 == keys[j]
    ensures forall i, j :: 0 <= i < j < |keys| ==> keys[i] != keys[j]
  {
    if rows == [] then []
    else
      var rest, last := rows[..|rows| - 1], rows[|rows| - 1];
      assert forall i :: 0 <= i < |rest| ==> rest[i] == rows[i];
      assert rows[|rest|] == last;
      var keys := Keys(rest);
      if last.0 in keys then keys else keys + [last.0]
  }

  function GroupBy<K(==), V>(rows: seq<(K, V)>): seq<Group<K, V>> {
    var keys := Keys(rows);
    seq(|keys|, i requires 0 <= i < |keys| => Group(keys[i], Select(rows, keys[i])))
  }

  predicate DistinctKeys<K(==), V>(groups: seq<Group<K, V>>) {
    forall i, j :: 0 <= i < j < |groups| ==> groups[i].key != groups[j].key
  }

  // ---- the scan groups ---------------------------------------------------------------------

  lemma {:induction false} SelectNone<K, V>(rows: seq<(K, V)>, k: K)
    requires k !in Keys(rows)
    ensures Select(rows, k) == []
  {
    if rows != [] {
      var rest, last := rows[..|rows| - 1], rows[|rows| - 1];
      assert rows == rest + [last];
      assert rows[|rows| - 1].0 in Keys(rows);
      SelectNone(rest, k);
    }
  }

  lemma SelectAppend<K, V>(rows: seq<(K, V)>, row: (K, V), k: K)
    ensures Select(rows + [row], k) == if row.0 == k then Select(rows, k) + [row.1] else Select(rows, k)
  {
    var longer := rows + [row];
    assert longer[..|longer| - 1] == rows;
  }

  lemma KeysAppend<K, V>(rows: seq<(K, V)>, row: (K, V))
    ensures Keys(rows + [row]) == if row.0 in Keys(rows) then Keys(rows) else Keys(rows) + [row.0]
  {
    var longer := rows + [row];
    assert longer[..|longer| - 1] == rows;
  }

  lemma FindInGroupBy<K, V>(rows: seq<(K, V)>, k: K)
    ensures Find(GroupBy(rows), k) == -1 <==> k !in Keys(rows)
    ensures Find(GroupBy(rows), k) >= 0 ==> Keys(rows)[Find(GroupBy(rows), k)] == k
  {
    var groups, keys := GroupBy(rows), Keys(rows);
    if k in keys {
      var j :| 0 <= j < |keys| && keys[j] == k;
      assert groups[j].key == k;
    }
    if 0 <= Find(groups, k) {
      assert groups[Find(groups, k)].key == k;
    }
  }

  /** One more row leaves every other group of the reference grouping as it was. */
  lemma GroupByOther<K, V>(rows: seq<(K, V)>, row: (K, V), j: nat)
    requires j < |Keys(rows)|
    ensures j < |Keys(rows + [row])| && GroupBy(rows + [row])[j] ==
            if Keys(rows)[j] == row.0 then Group(row.0, Select(rows, row.0) + [row.1]) else GroupBy(rows)[j]
  {
    hide Select, Keys;
    KeysAppend(rows, row);
    SelectAppend(rows, row, Keys(rows)[j]);
  }

  lemma GroupByNew<K, V>(rows: seq<(K, V)>, row: (K, V))
    requires row.0 !in Keys(rows)
    ensures |GroupBy(rows + [row])| == |Keys(rows)| + 1
    ensures GroupBy(rows + [row])[|Keys(rows)|] == Group(row.0, [row.1])
  {
    KeysAppend(rows, row);
    SelectAppend(rows, row, row.0);
    SelectNone(rows, row.0);
    assert [] + [row.1] == [row.1];
  }

  /** The reference grouping of one more row. */
  lemma GroupByAppend<K, V>(rows: seq<(K, V)>, row: (K, V))
    ensures GroupBy(rows + [row]) == Insert(GroupBy(rows), row.0, row.1)
  {
    hide Select, Keys, GroupBy;
    var after, groups := GroupBy(rows + [row]), GroupBy(rows);
    SizesOfGroupBy(rows, row);
    FindInGroupBy(rows, row.0);
    forall j | 0 <= j < |Keys(rows)|
      ensures after[j] == if Keys(rows)[j] == row.0 then Group(row.0, Select(rows, row.0) + [row.1]) else groups[j]
    {
      GroupByOther(rows, row, j);
    }
    if row.0 !in Keys(rows) {
      GroupByNew(rows, row);
    }
  }

  lemma SizesOfGroupBy<K, V>(rows: seq<(K, V)>, row: (K, V))
    ensures |GroupBy(rows)| == |Keys(rows)|
    ensures |GroupBy(rows + [row])| == if row.0 in Keys(rows) then |Keys(rows)| else |Keys(rows)| + 1
    ensures forall j :: 0 <= j < |Keys(rows)| ==> GroupBy(rows)[j] == Group(Keys(rows)[j], Select(rows, Keys(rows)[j]))
  {
    KeysAppend(rows, row);
  }

  /** The imperative scan computes the reference grouping. */
  lemma {:induction false} CollectIsGroupBy<K, V>(rows: seq<(K, V)>)
    ensures Collect(rows) == GroupBy(rows)
  {
    if rows != [] {
      var rest, last := rows[..|rows| - 1], rows[|rows| - 1];
      assert rows == rest + [last];
      CollectIsGroupBy(rest);
      GroupByAppend(rest, last);
    }
  }

  lemma {:induction false} SelectSome<K, V>(rows: seq<(K, V)>, k: K)
    requires k in Keys(rows)
    ensures Select(rows, k) != []
  {
    var rest, last := rows[..|rows| - 1], rows[|rows| - 1];
    if last.0 != k {
      SelectSome(rest, k);
    }
  }

  function Sizes<K, V>(groups: seq<Group<K, V>>): nat {
    if groups == [] then 0 else Sizes(groups[..|groups| - 1]) + |groups[|groups| - 1].items|
  }

  lemma {:induction false} SizesUpdate<K, V>(groups: seq<Group<K, V>>, i: nat, g: Group<K, V>)
    requires i < |groups|
    ensures Sizes(groups[i := g]) == Sizes(groups) - |groups[i].items| + |g.items|
  {
    var n := |groups| - 1;
    if i < n {
      SizesUpdate(groups[..n], i, g);
      assert groups[i := g][..n] == groups[..n][i := g];
    } else {
      assert groups[i := g][..n] == groups[..n];
    }
  }

  /** No row is lost or duplicated: the groups hold as many items as there are rows, each group's
      items are exactly its rows in order, no group is empty and no key appears twice. */
  lemma {:induction false} CollectConserves<K, V>(rows: seq<(K, V)>)
    ensures var groups := Collect(rows);
            && Sizes(groups) == |rows|
            && DistinctKeys(groups)
            && (forall i :: 0 <= i < |groups| ==>
                  groups[i].items == Select(rows, groups[i].key) && groups[i].items != [])
            && (forall i :: 0 <= i < |rows| ==> 0 <= Find(groups, rows[i].0))
  {
    CollectIsGroupBy(rows);
    forall i | 0 <= i < |Keys(rows)|
      ensures Select(rows, Keys(rows)[i]) != []
    {
      SelectSome(rows, Keys(rows)[i]);
    }
    forall i | 0 <= i < |rows|
      ensures 0 <= Find(Collect(rows), rows[i].0)
    {
      assert rows[i].0 in Keys(rows);
      var j :| 0 <= j < |Keys(rows)| && Keys(rows)[j] == rows[i].0;
      assert GroupBy(rows)[j].key == rows[i].0;
    }
    CollectCounts(rows);
  }

  lemma {:induction false} CollectCounts<K, V>(rows: seq<(K, V)>)
    ensures Sizes(Collect(rows)) == |rows|
  {
    if rows != [] {
      var rest, last := rows[..|rows| - 1], rows[|rows| - 1];
      CollectCounts(rest);
      var groups := Collect(rest);
      var i := Find(groups, last.0);
      if i == -1 {
        assert (groups + [Group(last.0, [last.1])])[..|groups|] == groups;
      } else {
        SizesUpdate(groups, i, Group(last.0, groups[i].items + [last.1]));
      }
    }
  }

  // ---- two levels --------------------------------------------------------------------------

  function InsertNested<K(==), R(==), V>(groups: seq<Group<K, Group<R, V>>>, k: K, r: R, v: V)
    : seq<Group<K, Group<R, V>>>
  {
    var i := Find(groups, k);
    if i == -1 then groups + [Group(k, [Group(r, [v])])]
    else groups[i := Group(k, Insert(groups[i].items, r, v))]
  }

  function CollectNested<K(==), R(==), V>(rows: seq<(K, (R, V))>): seq<Group<K, Group<R, V>>> {
    if rows == [] then []
    else
      var last := rows[|rows| - 1];
      InsertNested(CollectNested(rows[..|rows| - 1]), last.0, last.1.0, last.1.1)
  }

  function GroupEach<K, R(==), V>(groups: seq<Group<K, (R, V)>>): seq<Group<K, Group<R, V>>> {
    seq(|groups|, i requires 0 <= i < |groups| => Group(groups[i].key, GroupBy(groups[i].items)))
  }

  function GroupByNested<K(==), R(==), V>(rows: seq<(K, (R, V))>): seq<Group<K, Group<R, V>>> {
    GroupEach(GroupBy(rows))
  }

  lemma {:induction false} FindSameKeys<K, V, W>(a: seq<Group<K, V>>, b: seq<Group<K, W>>, k: K)
    requires |a| == |b| && forall i :: 0 <= i < |a| ==> a[i].key == b[i].key
    ensures Find(a, k) == Find(b, k)
  {
    var i, j := Find(a, k), Find(b, k);
    if 0 <= i < |b| {
      assert b[i].key == k;
    }
    if 0 <= j < |a| {
      assert a[j].key == k;
    }
  }

  lemma GroupByOne<R, V>(row: (R, V))
    ensures GroupBy([row]) == [Group(row.0, [row.1])]
  {
    GroupByAppend([], row);
    assert [] + [row] == [row];
  }

  lemma GroupEachAppend<K, R, V>(groups: seq<Group<K, (R, V)>>, g: Group<K, (R, V)>)
    ensures GroupEach(groups + [g]) == GroupEach(groups) + [Group(g.key, GroupBy(g.items))]
  {
  }

  lemma GroupEachUpdate<K, R, V>(groups: seq<Group<K, (R, V)>>, i: nat, g: Group<K, (R, V)>)
    requires i < |groups|
    ensures GroupEach(groups[i := g]) == GroupEach(groups)[i := Group(g.key, GroupBy(g.items))]
  {
  }

  /** Grouping inside the groups commutes with inserting a row. */
  lemma InsertInside<K, R, V>(groups: seq<Group<K, (R, V)>>, k: K, rv: (R, V))
    ensures GroupEach(Insert(groups, k, rv)) == InsertNested(GroupEach(groups), k, rv.0, rv.1)
  {
    var i := Find(groups, k);
    FindSameKeys(groups, GroupEach(groups), k);
    if i == -1 {
      GroupByOne(rv);
      GroupEachAppend(groups, Group(k, [rv]));
    } else {
      GroupByAppend(groups[i].items, rv);
      assert GroupEach(groups)[i].items == GroupBy(groups[i].items);
      GroupEachUpdate(groups, i, Group(k, groups[i].items + [rv]));
    }
    hide GroupEach, GroupBy;
  }

  /** The nested scan groups each group's own rows. */
  lemma {:induction false} CollectNestedIsGroupBy<K, R, V>(rows: seq<(K, (R, V))>)
    ensures CollectNested(rows) == GroupByNested(rows)
  {
    if rows != [] {
      var rest, last := rows[..|rows| - 1], rows[|rows| - 1];
      assert rows == rest + [last];
      CollectNestedIsGroupBy(rest);
      GroupByAppend(rest, last);
      InsertInside(GroupBy(rest), last.0, last.1);
    }
  }

  // ---- round trip --------------------------------------------------------------------------

  function Tagged<K, V>(k: K, items: seq<V>): seq<(K, V)> {
    if items == [] then [] else Tagged(k, items[..|items| - 1]) + [(k, items[|items| - 1])]
  }

  lemma {:induction false} TaggedAppend<K, V>(k: K, a: seq<V>, b: seq<V>)
    ensures Tagged(k, a + b) == Tagged(k, a) + Tagged(k, b)
  {
    if b == [] {
      assert a + b == a;
    } else {
      var n := |b| - 1;
      assert (a + b)[..|a + b| - 1] == a + b[..n];
      TaggedAppend(k, a, b[..n]);
    }
  }

  /** The rows a writer emits that visits the groups one after another. */
  function Flatten<K, V>(groups: seq<Group<K, V>>): seq<(K, V)> {
    if groups == [] then []
    else Flatten(groups[..|groups| - 1]) + Tagged(groups[|groups| - 1].key, groups[|groups| - 1].items)
  }

  predicate NonEmpty<K, V>(groups: seq<Group<K, V>>) {
    forall i :: 0 <= i < |groups| ==> groups[i].items != []
  }

  lemma FindLast<K, V>(groups: seq<Group<K, V>>, g: Group<K, V>)
    requires Find(groups, g.key) == -1
    ensures Find(groups + [g], g.key) == |groups|
  {
    var longer := groups + [g];
    assert longer[|groups|].key == g.key;
    forall j | 0 <= j < |groups|
      ensures longer[j].key != g.key
    {
      assert longer[j] == groups[j];
    }
  }

  lemma CollectNext<K, V>(rows: seq<(K, V)>, k: K, v: V)
    ensures Collect(rows + [(k, v)]) == Insert(Collect(rows), k, v)
  {
    var longer := rows + [(k, v)];
    assert longer[..|longer| - 1] == rows;
  }

  lemma {:induction false} CollectTagged<K, V>(rows: seq<(K, V)>, k: K, items: seq<V>)
    requires Find(Collect(rows), k) == -1 && items != []
    ensures Collect(rows + Tagged(k, items)) == Collect(rows) + [Group(k, items)]
  {
    var n := |items| - 1;
    var shorter := rows + Tagged(k, items[..n]);
    AppendAssociates(rows, Tagged(k, items[..n]), [(k, items[n])]);
    CollectNext(shorter, k, items[n]);
    if n == 0 {
      AppendNothing(rows);
      assert items == [items[0]];
    } else {
      CollectTagged(rows, k, items[..n]);
      GroupGrows(Collect(rows), k, items);
    }
  }

  lemma AppendAssociates<T>(a: seq<T>, b: seq<T>, c: seq<T>)
    ensures a + (b + c) == (a + b) + c
  {
  }

  lemma AppendNothing<T>(a: seq<T>)
    ensures a + [] == a
  {
  }

  /** The last group takes the next item. */
  lemma GroupGrows<K, V>(groups: seq<Group<K, V>>, k: K, items: seq<V>)
    requires Find(groups, k) == -1 && |items| > 1
    ensures Insert(groups + [Group(k, items[..|items| - 1])], k, items[|items| - 1]) == groups + [Group(k, items)]
  {
    var n := |items| - 1;
    FindLast(groups, Group(k, items[..n]));
    assert items[..n] + [items[n]] == items;
  }

  /** Grouping what was written group by group gives the groups back. */
  lemma {:induction false} GroupByFlatten<K, V>(groups: seq<Group<K, V>>)
    requires DistinctKeys(groups) && NonEmpty(groups)
    ensures GroupBy(Flatten(groups)) == groups
  {
    CollectFlatten(groups);
    CollectIsGroupBy(Flatten(groups));
  }

  lemma {:induction false} CollectFlatten<K, V>(groups: seq<Group<K, V>>)
    requires DistinctKeys(groups) && NonEmpty(groups)
    ensures Collect(Flatten(groups)) == groups
  {
    hide Collect, Tagged;
    if groups != [] {
      var n := |groups| - 1;
      var last := groups[n];
      CollectFlatten(groups[..n]);
      assert Find(groups[..n], last.key) == -1;
      CollectTagged(Flatten(groups[..n]), last.key, last.items);
      assert groups[..n] + [Group(last.key, last.items)] == groups;
    } else {
      CollectNothing<K, V>();
    }
  }

  lemma CollectNothing<K, V>()
    ensures Collect<K, V>([]) == []
  {
  }

  /** The flat rows of a two-level structure. */
  function FlattenNested<K, R, V>(groups: seq<Group<K, Group<R, V>>>): seq<(K, (R, V))> {
    Flatten(FlattenInner(groups))
  }

  function FlattenInner<K, R, V>(groups: seq<Group<K, Group<R, V>>>): seq<Group<K, (R, V)>> {
    seq(|groups|, i requires 0 <= i < |groups| => Group(groups[i].key, Flatten(groups[i].items)))
  }

  lemma FlattenNestedStep<K, R, V>(groups: seq<Group<K, Group<R, V>>>, n: nat)
    requires 0 < n <= |groups|
    ensures FlattenNested(groups[..n]) ==
            FlattenNested(groups[..n - 1]) + Tagged(groups[n - 1].key, Flatten(groups[n - 1].items))
  {
    assert FlattenInner(groups[..n])[..n - 1] == FlattenInner(groups[..n - 1]);
  }

  lemma FlattenNonEmpty<R, V>(groups: seq<Group<R, V>>)
    requires groups != [] && NonEmpty(groups)
    ensures Flatten(groups) != []
  {
    assert |Tagged(groups[|groups| - 1].key, groups[|groups| - 1].items)| > 0;
  }

  /** The two-level round trip: keys distinct at both levels and nothing empty. */
  lemma GroupByFlattenNested<K, R, V>(groups: seq<Group<K, Group<R, V>>>)
    requires DistinctKeys(groups) && NonEmpty(groups)
    requires forall i :: 0 <= i < |groups| ==> DistinctKeys(groups[i].items) && NonEmpty(groups[i].items)
    ensures GroupByNested(FlattenNested(groups)) == groups
  {
    var inner := FlattenInner(groups);
    forall i | 0 <= i < |groups|
      ensures inner[i].items != [] && GroupBy(inner[i].items) == groups[i].items
    {
      FlattenNonEmpty(groups[i].items);
      GroupByFlatten(groups[i].items);
    }
    GroupByFlatten(inner);
    assert GroupEach(inner) == groups;
  }

  // ---- find or create ----------------------------------------------------------------------

  /** A search that stops at the first match finds what Find finds. */
  lemma FoundAt<K, V>(groups: seq<Group<K, V>>, k: K, at: int)
    requires -1 <= at < |groups| && (at >= 0 ==> groups[at].key == k)
    requires forall j :: 0 <= j < (if at == -1 then |groups| else at) ==> groups[j].key != k
    ensures Find(groups, k) == at
  {
  }

  /** The groups with an empty one added for a key that has none. */
  function WithGroup<K(==), V>(groups: seq<Group<K, V>>, k: K): (now: seq<Group<K, V>>)
    ensures IndexOf(groups, k) < |now| && now[IndexOf(groups, k)].key == k
  {
    if Find(groups, k) == -1 then groups + [Group(k, [])] else groups
  }

  function IndexOf<K(==), V>(groups: seq<Group<K, V>>, k: K): nat {
    if Find(groups, k) == -1 then |groups| else Find(groups, k)
  }

  /** Finding or creating a group and then appending to it is inserting. */
  lemma CreateThenAppend<K, V>(groups: seq<Group<K, V>>, k: K, v: V)
    ensures var now, i := WithGroup(groups, k), IndexOf(groups, k);
            now[i := Group(now[i].key, now[i].items + [v])] == Insert(groups, k, v)
  {
    assert [] + [v] == [v];
    assert (groups + [Group(k, [])])[|groups| := Group(k, [v])] == groups + [Group(k, [v])];
  }

  /** Finding or creating a group and then a case inside it, and appending to the case, is inserting. */
  lemma RecordedRow<K, R, V>(groups: seq<Group<K, Group<R, V>>>, row: (K, (R, V)))
    ensures var now, i := WithGroup(groups, row.0), IndexOf(groups, row.0);
            var cases, k := WithGroup(now[i].items, row.1.0), IndexOf(now[i].items, row.1.0);
            var ready := now[i := Group(now[i].key, cases)];
            ready[i := Group(ready[i].key, ready[i].items[k := Group(cases[k].key, cases[k].items + [row.1.1])])] ==
            InsertNested(groups, row.0, row.1.0, row.1.1)
  {
    var now, i := WithGroup(groups, row.0), IndexOf(groups, row.0);
    var cases, k := WithGroup(now[i].items, row.1.0), IndexOf(now[i].items, row.1.0);
    var recorded := cases[k := Group(cases[k].key, cases[k].items + [row.1.1])];
    CreateThenAppend(now[i].items, row.1.0, row.1.1);
    assert now[i := Group(now[i].key, cases)][i := Group(now[i].key, recorded)] == now[i := Group(now[i].key, recorded)];
    if Find(groups, row.0) == -1 {
      assert recorded == [Group(row.1.0, [row.1.1])];
      assert now[i := Group(row.0, recorded)] == groups + [Group(row.0, recorded)];
    }
  }
}
