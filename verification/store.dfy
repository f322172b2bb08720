/**
 * The editor's selection store: the main UNION chain of queries with the
 * selected one, the CTEs with the selected one (or `-1` for the main
 * chain), and inside each CTE its own chain of sub-queries with their
 * selected one. The getters read it and the mutations change it in place.
 */
module Store {
  import opened Wrappers
  import opened Text
  import opened Lists
  import opened QueryModel

  /** The table names of the demo schema, in order. */
  const SchemaTables: seq<string> := ["users", "orders", "products", "order_items"]

  /** `createEmptyQuery()`: a query named `Запрос` with nothing selected. */
  function NewQuery(): (q: Query)
    ensures q.name == "Запрос" && q.fields == [] && q.joins == [] && q.filters == [] && !q.unionAllNext
  {
    EmptyQuery("Запрос")
  }

  /** `cte_n`: the name `addCTE` gives the CTE it appends to a list of `n - 1`. */
  function CteName(n: nat): string {
    "cte_" + NatToString(n)
  }

  /** `Подзапрос n`: the name `addCTEQuery` gives the sub-query it appends to a chain of `n - 1`. */
  function SubQueryName(n: nat): string {
    "Подзапрос " + NatToString(n)
  }

  /** A CTE as `addCTE` appends it to a list of `n - 1`: one empty sub-query, selected. */
  function NewCte(n: nat): (c: Cte)
    ensures c.name == CteName(n) && c.isCte && c.queries == [NewQuery()] && c.currentQueryIndex == 0
  {
    Cte(CteName(n), true, [NewQuery()], 0)
  }

  /**
   * Where `splice(index, 1)` starts on a list of `len`: a negative index
   * counts from the end and stops at the front, a large one stops at the end.
   */
  function SpliceStart(len: nat, index: int): (s: nat)
    ensures s <= len
    ensures 0 <= index <= len ==> s == index
    ensures index < 0 && len + index >= 0 ==> s == len + index
  {
    if index < 0 then (if len + index < 0 then 0 else len + index)
    else if index > len then len
    else index
  }

  /**
   * `xs.splice(index, 1)`: the element at the start position is removed and
   * the later ones move down by one; nothing changes when the start is the end.
   */
  function RemoveAt<T>(xs: seq<T>, index: int): (r: seq<T>)
    ensures var s := SpliceStart(|xs|, index);
      if s < |xs| then
        |r| == |xs| - 1
        && (forall k :: 0 <= k < s ==> r[k] == xs[k])
        && (forall k :: s <= k < |r| ==> r[k] == xs[k + 1])
      else r == xs
  {
    var s := SpliceStart(|xs|, index);
    if s < |xs| then xs[..s] + xs[s + 1..] else xs
  }

  /** Removing takes out exactly the element at the start position: the rest is kept, counted with multiplicity. */
  lemma RemoveAtRemovesOne<T>(xs: seq<T>, index: int)
    requires SpliceStart(|xs|, index) < |xs|
    ensures multiset(RemoveAt(xs, index)) + multiset{xs[SpliceStart(|xs|, index)]} == multiset(xs)
  {
    var s := SpliceStart(|xs|, index);
    assert xs == xs[..s] + [xs[s]] + xs[s + 1..];
    assert RemoveAt(xs, index) == xs[..s] + xs[s + 1..];
  }

  /** A CTE whose chain is not empty and whose selected sub-query exists. */
  ghost predicate CteValid(c: Cte) {
    |c.queries| >= 1 && 0 <= c.currentQueryIndex < |c.queries|
  }

  function NameOf(c: Cte): string {
    c.name
  }

  class Store {
    var queries: seq<Query>
    var currentQueryIndex: int
    var ctes: seq<Cte>
    var currentCteIndex: int

    /**
     * The main chain is never empty and its selected query exists; the
     * selected CTE exists or is `-1`; every CTE keeps a non-empty chain with
     * an existing selected sub-query.
     */
    ghost predicate Valid()
      reads this
    {
      |queries| >= 1 && 0 <= currentQueryIndex < |queries|
      && -1 <= currentCteIndex < |ctes|
      && forall k :: 0 <= k < |ctes| ==> CteValid(ctes[k])
    }

    /** The initial store: one empty query, selected, and no CTEs. */
    constructor()
      ensures Valid()
      ensures queries == [NewQuery()] && currentQueryIndex == 0 && ctes == [] && currentCteIndex == -1
    {
      queries := [NewQuery()];
      currentQueryIndex := 0;
      ctes := [];
      currentCteIndex := -1;
    }

    /** `currentQuery()`: the selected query of the main chain. */
    function CurrentQuery(): (q: Query)
      reads this
      requires Valid()
      ensures q in queries
    {
      queries[currentQueryIndex]
    }

    /** `currentCTE()`: the selected CTE, or none when the main chain is selected. */
    function CurrentCte(): (c: Option<Cte>)
      reads this
      requires Valid()
      ensures c.Some? <==> currentCteIndex >= 0
      ensures c.Some? ==> c.value in ctes && CteValid(c.value)
    {
      if currentCteIndex >= 0 then Some(ctes[currentCteIndex]) else None
    }

    /** `currentItem()`: the selected sub-query of the selected CTE, or the selected main query when no CTE is selected. */
    function CurrentItem(): (q: Query)
      reads this
      requires Valid()
      ensures currentCteIndex < 0 ==> q == CurrentQuery()
      ensures currentCteIndex >= 0 ==> q in CurrentCte().value.queries
    {
      if currentCteIndex >= 0 then
        var c := ctes[currentCteIndex];
        c.queries[c.currentQueryIndex]
      else queries[currentQueryIndex]
    }

    /** `allAvailableTables()`: the schema's table names, then the CTE names in order. */
    function AllAvailableTables(): (r: seq<string>)
      reads this
      ensures |r| == |SchemaTables| + |ctes|
      ensures r[..|SchemaTables|] == SchemaTables
      ensures forall k :: 0 <= k < |ctes| ==> r[|SchemaTables| + k] == ctes[k].name
    {
      MapEach(NameOf, ctes);
      SchemaTables + Map(NameOf, ctes)
    }

    /** `reset()`: back to the initial store. */
    method Reset()
      modifies this
      ensures Valid()
      ensures queries == [NewQuery()] && currentQueryIndex == 0 && ctes == [] && currentCteIndex == -1
    {
      queries := [NewQuery()];
      currentQueryIndex := 0;
      ctes := [];
      currentCteIndex := -1;
    }

    /** `addQuery()`: appends an empty query named `Запрос n+1`, selects it and switches to the main chain. */
    method AddQuery()
      requires Valid()
      modifies this
      ensures Valid()
      ensures queries == old(queries) + [EmptyQuery(QueryName(|old(queries)| + 1))]
      ensures currentQueryIndex == |old(queries)| && currentCteIndex == -1 && ctes == old(ctes)
      ensures CurrentItem() == EmptyQuery(QueryName(|old(queries)| + 1))
    {
      var q := EmptyQuery(QueryName(|queries| + 1));
      queries := queries + [q];
      currentQueryIndex := |queries| - 1;
      currentCteIndex := -1;
    }

    /**
     * `removeQuery(index)`: nothing when only one query is left; otherwise the
     * query at the splice position is removed and the selection is clamped to
     * the last query. The selection is not shifted: removing a later query
     * keeps the selected one, while removing an earlier query moves the
     * selection onto the query that followed the selected one (the selected
     * one itself only when it was the last, through the clamp).
     */
    method RemoveQuery(index: int)
      requires Valid()
      modifies this
      ensures Valid()
      ensures |old(queries)| == 1 ==> queries == old(queries) && currentQueryIndex == old(currentQueryIndex)
      ensures |old(queries)| > 1 ==>
        (queries == RemoveAt(old(queries), index)
         && currentQueryIndex == (if old(currentQueryIndex) >= |queries| then |queries| - 1 else old(currentQueryIndex)))
      ensures |old(queries)| > 1 && SpliceStart(|old(queries)|, index) > old(currentQueryIndex)
        ==> queries[currentQueryIndex] == old(queries)[old(currentQueryIndex)]
      ensures |old(queries)| > 1 && SpliceStart(|old(queries)|, index) < old(currentQueryIndex)
        ==> queries[currentQueryIndex]
            == old(queries)[if old(currentQueryIndex) + 1 < |old(queries)| then old(currentQueryIndex) + 1 else old(currentQueryIndex)]
      ensures ctes == old(ctes) && currentCteIndex == old(currentCteIndex)
    {
      if |queries| == 1 {
        return;
      }
      queries := RemoveAt(queries, index);
      if currentQueryIndex >= |queries| {
        currentQueryIndex := |queries| - 1;
      }
    }

    /** `selectQuery(index)`: selects an existing main query and switches to the main chain; any other index changes nothing. */
    method SelectQuery(index: int)
      requires Valid()
      modifies this
      ensures Valid()
      ensures 0 <= index < |queries| ==> currentQueryIndex == index && currentCteIndex == -1
      ensures !(0 <= index < |queries|)
        ==> currentQueryIndex == old(currentQueryIndex) && currentCteIndex == old(currentCteIndex)
      ensures queries == old(queries) && ctes == old(ctes)
    {
      if 0 <= index < |queries| {
        currentQueryIndex := index;
        currentCteIndex := -1;
      }
    }

    /** `addCTE()`: appends `cte_{n+1}` with one empty sub-query and selects it. */
    method AddCte()
      requires Valid()
      modifies this
      ensures Valid()
      ensures ctes == old(ctes) + [NewCte(|old(ctes)| + 1)]
      ensures currentCteIndex == |old(ctes)|
      ensures queries == old(queries) && currentQueryIndex == old(currentQueryIndex)
      ensures CurrentItem() == NewQuery()
    {
      var c := NewCte(|ctes| + 1);
      ctes := ctes + [c];
      currentCteIndex := |ctes| - 1;
    }

    /**
     * `removeCTE(index)`: nothing when there are no CTEs; otherwise the CTE at
     * the splice position is removed and a selection past the end moves to the
     * last CTE, or to the main chain when none is left.
     */
    method RemoveCte(index: int)
      requires Valid()
      modifies this
      ensures Valid()
      ensures |old(ctes)| == 0 ==> ctes == old(ctes) && currentCteIndex == old(currentCteIndex)
      ensures |old(ctes)| > 0 ==>
        (ctes == RemoveAt(old(ctes), index)
         && currentCteIndex == (if old(currentCteIndex) >= |ctes| then |ctes| - 1 else old(currentCteIndex)))
      ensures queries == old(queries) && currentQueryIndex == old(currentQueryIndex)
    {
      if |ctes| == 0 {
        return;
      }
      ctes := RemoveAt(ctes, index);
      if currentCteIndex >= |ctes| {
        currentCteIndex := if |ctes| > 0 then |ctes| - 1 else -1;
      }
    }

    /** `selectCTE(index)`: selects an existing CTE; any other index switches to the main chain. */
    method SelectCte(index: int)
      requires Valid()
      modifies this
      ensures Valid()
      ensures currentCteIndex == (if 0 <= index < |ctes| then index else -1)
      ensures queries == old(queries) && currentQueryIndex == old(currentQueryIndex) && ctes == old(ctes)
    {
      if 0 <= index < |ctes| {
        currentCteIndex := index;
      } else {
        currentCteIndex := -1;
      }
    }

    /**
     * `addCTEQuery()`: with a CTE selected, appends an empty sub-query named
     * `Подзапрос n+1` to its chain and selects it; with the main chain
     * selected, nothing changes.
     */
    method AddCteQuery()
      requires Valid()
      modifies this
      ensures Valid()
      ensures old(currentCteIndex) < 0 ==> ctes == old(ctes)
      ensures old(currentCteIndex) >= 0 ==>
        var i := old(currentCteIndex);
        var c := old(ctes)[i];
        |ctes| == |old(ctes)|
        && (forall k :: 0 <= k < |ctes| && k != i ==> ctes[k] == old(ctes)[k])
        && ctes[i].name == c.name && ctes[i].isCte == c.isCte
        && ctes[i].queries == c.queries + [EmptyQuery(SubQueryName(|c.queries| + 1))]
        && ctes[i].currentQueryIndex == |c.queries|
        && CurrentItem() == EmptyQuery(SubQueryName(|c.queries| + 1))
      ensures queries == old(queries) && currentQueryIndex == old(currentQueryIndex)
      ensures currentCteIndex == old(currentCteIndex)
    {
      if currentCteIndex >= 0 {
        var c := ctes[currentCteIndex];
        var q := EmptyQuery(SubQueryName(|c.queries| + 1));
        var added := c.(queries := c.queries + [q], currentQueryIndex := |c.queries|);
        ctes := ctes[currentCteIndex := added];
      }
    }

    /**
     * `removeCTEQuery(index)`: with a CTE selected that has more than one
     * sub-query, removes the sub-query at the splice position and clamps the
     * CTE's selection to its last sub-query; otherwise nothing changes.
     */
    method RemoveCteQuery(index: int)
      requires Valid()
      modifies this
      ensures Valid()
      ensures old(currentCteIndex) < 0 || |old(ctes)[old(currentCteIndex)].queries| == 1 ==> ctes == old(ctes)
      ensures old(currentCteIndex) >= 0 && |old(ctes)[old(currentCteIndex)].queries| > 1 ==>
        var i := old(currentCteIndex);
        var c := old(ctes)[i];
        var rest := RemoveAt(c.queries, index);
        |ctes| == |old(ctes)|
        && (forall k :: 0 <= k < |ctes| && k != i ==> ctes[k] == old(ctes)[k])
        && ctes[i].name == c.name && ctes[i].isCte == c.isCte
        && ctes[i].queries == rest
        && ctes[i].currentQueryIndex == (if c.currentQueryIndex >= |rest| then |rest| - 1 else c.currentQueryIndex)
      ensures queries == old(queries) && currentQueryIndex == old(currentQueryIndex)
      ensures currentCteIndex == old(currentCteIndex)
    {
      if currentCteIndex >= 0 {
        var c := ctes[currentCteIndex];
        if |c.queries| == 1 {
          return;
        }
        var rest := RemoveAt(c.queries, index);
        var selected := if c.currentQueryIndex >= |rest| then |rest| - 1 else c.currentQueryIndex;
        ctes := ctes[currentCteIndex := c.(queries := rest, currentQueryIndex := selected)];
      }
    }

    /** `selectCTEQuery(index)`: with a CTE selected, selects an existing sub-query of it; otherwise nothing changes. */
    method SelectCteQuery(index: int)
      requires Valid()
      modifies this
      ensures Valid()
      ensures old(currentCteIndex) >= 0 && 0 <= index < |old(ctes)[old(currentCteIndex)].queries| ==>
        ctes == old(ctes)[old(currentCteIndex) := old(ctes)[old(currentCteIndex)].(currentQueryIndex := index)]
        && CurrentItem() == old(ctes)[old(currentCteIndex)].queries[index]
      ensures !(old(currentCteIndex) >= 0 && 0 <= index < |old(ctes)[old(currentCteIndex)].queries|) ==>
        ctes == old(ctes)
      ensures queries == old(queries) && currentQueryIndex == old(currentQueryIndex)
      ensures currentCteIndex == old(currentCteIndex)
    {
      if currentCteIndex >= 0 {
        var c := ctes[currentCteIndex];
        if 0 <= index < |c.queries| {
          ctes := ctes[currentCteIndex := c.(currentQueryIndex := index)];
        }
      }
    }
  }

  /**
   * CTE names come from the current count, so they need not be unique: two
   * CTEs added, the first removed and one more added leaves two CTEs both
   * named `cte_2`.
   */
  method DuplicateCteNames() returns (s: Store)
    ensures s.Valid() && |s.ctes| == 2 && s.ctes[0].name == s.ctes[1].name == CteName(2)
  {
    s := new Store();
    s.AddCte();
    s.AddCte();
    s.RemoveCte(0);
    s.AddCte();
  }
}
