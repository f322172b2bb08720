/**
 * The records the parser builds, the generator reads and the editor store
 * holds: a query with its fields, joins, filters, grouping, ordering and
 * limits; a CTE (a named list of queries joined by UNION); and the parse
 * result, an ordered list of CTEs plus an ordered list of main queries.
 *
 * JavaScript `null` is `None`; every other optional text is a plain string,
 * where the empty string plays the part of a falsy value.
 */
module QueryModel {
  import opened Wrappers
  import opened Text

  /** One select-list entry. `table == None` is a field without a table (`null`). */
  datatype Field = Field(table: Option<string>, name: string, alias: string, agg: string, expression: string)

  /** One `left op right` comparison of a JOIN's ON part. */
  datatype JoinCond = JoinCond(left: string, op: string, right: string)

  /** A JOIN: its kind (`LEFT`, `INNER`, ...), the joined table and its ON comparisons. */
  datatype Join = Join(kind: string, rightTable: string, on: seq<JoinCond>)

  /** One WHERE condition; `logic` is the connective that follows it. */
  datatype Filter = Filter(field: string, op: string, value: string, logic: string)

  /** One ORDER BY entry. */
  datatype OrderItem = OrderItem(field: string, dir: string)

  /**
   * One SELECT statement. `unionAllNext` says that the statement is joined to
   * the one before it by `UNION ALL` rather than `UNION`.
   */
  datatype Query = Query(
    name: string,
    selectedTables: seq<string>,
    fields: seq<Field>,
    joins: seq<Join>,
    filters: seq<Filter>,
    groupBy: seq<string>,
    orderBy: seq<OrderItem>,
    limit: Option<nat>,
    offset: Option<nat>,
    unionAllNext: bool)

  /** A common table expression: a name and the UNION chain that defines it. */
  datatype Cte = Cte(name: string, isCte: bool, queries: seq<Query>, currentQueryIndex: int)

  /** What the parser returns: CTEs in order of definition, then the main UNION chain. */
  datatype Document = Document(ctes: seq<Cte>, queries: seq<Query>)

  /** `Запрос n`: the name the parser gives the `n`-th query of a chain and the editor gives a new main query. */
  function QueryName(n: nat): string
  {
    "Запрос " + NatToString(n)
  }

  /** A query with every list empty and no limit, named `name`. */
  function EmptyQuery(name: string): (q: Query)
    ensures q.name == name && !q.unionAllNext
    ensures q.selectedTables == [] && q.fields == [] && q.joins == [] && q.filters == []
    ensures q.groupBy == [] && q.orderBy == [] && q.limit == None && q.offset == None
  {
    Query(name, [], [], [], [], [], [], None, None, false)
  }
}
