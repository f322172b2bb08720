/**
 * The SQL generator: one SELECT statement from a query (`buildSingleSQL`),
 * a UNION chain of statements (`buildCTESQL`), and the whole text with its
 * `WITH` section (`buildSQLFromQueries`).
 */
module SqlGen {
  import opened Wrappers
  import opened Text
  import opened Lists
  import opened QueryModel
  import opened SqlText
  import FieldParse

  /** What `buildSingleSQL` returns for a query with no table to read from. */
  const Placeholder: string := "-- " + "Добавьте хотя бы одно поле или выберите таблицу"

  // ---------------------------------------------------------------------
  // The table read from

  /** A possibly null table written into a template string: null prints as `null`. */
  function TableText(table: Option<string>): string {
    if table.Some? then table.value else "null"
  }

  /**
   * The first selected table when it is not empty, else the first field's
   * table when it is not null or empty, else none.
   */
  function BaseTable(q: Query): (r: Option<string>)
    ensures r.Some? ==> r.value != []
    ensures r.None? <==>
      (q.selectedTables == [] || q.selectedTables[0] == [])
      && (q.fields == [] || q.fields[0].table.None? || q.fields[0].table.value == [])
  {
    if q.selectedTables != [] && q.selectedTables[0] != [] then Some(q.selectedTables[0])
    else if q.fields != [] && q.fields[0].table.Some? && q.fields[0].table.value != [] then Some(q.fields[0].table.value)
    else None
  }

  // ---------------------------------------------------------------------
  // The select list

  /** `fields.find(x => x.table === f.table && x.name === f.name)` finds a field. */
  predicate Found(fields: seq<Field>, f: Field) {
    exists k :: 0 <= k < |fields| && fields[k].table == f.table && fields[k].name == f.name
  }

  /** `xs.filter(f => fields.find(...))`. */
  function KeepFound(fields: seq<Field>, xs: seq<Field>): seq<Field>
    decreases |xs|
  {
    if xs == [] then [] else (if Found(fields, xs[0]) then [xs[0]] else []) + KeepFound(fields, xs[1..])
  }

  /** The filter keeps every element that is a field of the list searched. */
  lemma {:induction false} KeepFoundMembers(fields: seq<Field>, xs: seq<Field>)
    requires forall k :: 0 <= k < |xs| ==> xs[k] in fields
    ensures KeepFound(fields, xs) == xs
    decreases |xs|
  {
    if xs != [] {
      var i :| 0 <= i < |fields| && fields[i] == xs[0];
      assert Found(fields, xs[0]);
      KeepFoundMembers(fields, xs[1..]);
    }
  }

  /** Every field is selected, in order: each field finds itself. */
  lemma KeepFoundAll(fields: seq<Field>)
    ensures KeepFound(fields, fields) == fields
  {
    KeepFoundMembers(fields, fields);
  }

  /** `${f.table}.${f.name}`. */
  function DefaultExpr(f: Field): string {
    TableText(f.table) + "." + f.name
  }

  /** The expression before any aggregate is applied: the field's own, or `table.name`. */
  function ExprOf(f: Field): string {
    if f.expression != [] then f.expression else DefaultExpr(f)
  }

  /**
   * `expr` wrapped in the field's aggregate when `wrap` holds: a custom
   * expression is wrapped as it is, a plain field as its sanitised
   * `table.name`.
   */
  function WrapAggregate(f: Field, expr: string, wrap: bool): string {
    if !wrap then expr
    else if f.expression != [] && f.expression != DefaultExpr(f) then f.agg + "(" + expr + ")"
    else f.agg + "(" + QuoteOpt(f.table) + "." + QuoteIdentifier(f.name) + ")"
  }

  /**
   * The expression of one select-list entry, wrapped in the field's aggregate
   * when there is one and the expression does not already start with an
   * aggregate call (the parser's own `^(COUNT|SUM|AVG|MIN|MAX)\s*\(` test).
   */
  function FieldExpr(f: Field): string {
    var expr := ExprOf(f);
    WrapAggregate(f, expr, f.agg != [] && FieldParse.AggName(expr).None?)
  }

  /**
   * A field without an aggregate, or whose expression already starts with an
   * aggregate call, is written as its expression; any other aggregated field
   * is wrapped in `agg(` … `)`.
   */
  lemma FieldExprAggregate(f: Field)
    ensures f.agg == [] || FieldParse.AggName(ExprOf(f)).Some? ==> FieldExpr(f) == ExprOf(f)
    ensures f.agg != [] && FieldParse.AggName(ExprOf(f)).None? ==>
      var e := FieldExpr(f);
      |e| > |f.agg| + 1 && e[..|f.agg| + 1] == f.agg + "(" && e[|e| - 1] == ')'
  {
    var wrap := f.agg != [] && FieldParse.AggName(ExprOf(f)).None?;
    assert FieldExpr(f) == WrapAggregate(f, ExprOf(f), wrap);
    if wrap {
      if f.expression != [] && f.expression != DefaultExpr(f) {
        CallShape(f.agg, ExprOf(f));
      } else {
        CallShape(f.agg, QuoteOpt(f.table) + "." + QuoteIdentifier(f.name));
      }
    }
  }

  /** `agg(inner)` starts with `agg(` and ends with `)`. */
  lemma CallShape(agg: string, inner: string)
    ensures var e := agg + "(" + inner + ")";
      |e| > |agg| + 1 && e[..|agg| + 1] == agg + "(" && e[|e| - 1] == ')'
  {
    var e := agg + "(" + inner + ")";
    assert e == (agg + "(") + (inner + ")");
  }

  /** One select-list entry, with ` AS alias` when the field has an alias. */
  function FieldText(f: Field): string {
    if f.alias != [] then FieldExpr(f) + " AS " + QuoteIdentifier(f.alias) else FieldExpr(f)
  }

  /** The select-list entries: one per selected field, or `*` when there are none. */
  function SelectParts(fields: seq<Field>): seq<string> {
    var selected := KeepFound(fields, fields);
    if selected != [] then Map(FieldText, selected) else ["*"]
  }

  /** One entry per field, in order, or `*` alone for no fields. */
  lemma SelectPartsEach(fields: seq<Field>)
    ensures fields == [] ==> SelectParts(fields) == ["*"]
    ensures fields != [] ==> (|SelectParts(fields)| == |fields|
      && forall k :: 0 <= k < |fields| ==> SelectParts(fields)[k] == FieldText(fields[k]))
  {
    KeepFoundAll(fields);
    MapEach(FieldText, fields);
  }

  // ---------------------------------------------------------------------
  // Joins

  /** `left op right` for a comparison with both sides set (`=` when `op` is empty). */
  function CondPart(c: JoinCond): Option<string> {
    if c.left != [] && c.right != [] then
      Some(QuoteIdentifier(c.left) + " " + (if c.op != [] then c.op else "=") + " " + QuoteIdentifier(c.right))
    else None
  }

  /** ` ON a AND b ...` over the complete comparisons, or nothing when there are none. */
  function OnText(on: seq<JoinCond>): string {
    var conds := FilterMap(CondPart, on);
    if conds != [] then " ON " + Joined(conds, " AND ") else ""
  }

  /** `type JOIN table ON ...`, with type `INNER` by default; nothing for a join without a table. */
  function JoinPart(j: Join): Option<string> {
    if j.rightTable == [] then None
    else Some((if j.kind != [] then j.kind else "INNER") + " JOIN " + QuoteIdentifier(j.rightTable) + OnText(j.on))
  }

  /** The ON part is left out exactly when no comparison has both sides set. */
  lemma OnTextOmitted(on: seq<JoinCond>)
    ensures OnText(on) == [] <==> forall k :: 0 <= k < |on| ==> on[k].left == [] || on[k].right == []
  {
    FilterMapEmpty(CondPart, on);
  }

  /** A join gives a part exactly when it has a table; the part starts with its type (or `INNER`) and ` JOIN `. */
  lemma JoinPartShape(j: Join)
    ensures JoinPart(j).None? <==> j.rightTable == []
    ensures j.rightTable != [] ==>
      var kind := if j.kind != [] then j.kind else "INNER";
      var p := JoinPart(j).value;
      |p| >= |kind| + 6 && p[..|kind| + 6] == kind + " JOIN "
  {
    if j.rightTable != [] {
      var kind := if j.kind != [] then j.kind else "INNER";
      var rest := QuoteIdentifier(j.rightTable) + OnText(j.on);
      assert JoinPart(j).value == (kind + " JOIN ") + rest;
    }
  }

  /** Joins without a table are left out; when every join has one, there is one part per join, in order. */
  lemma JoinPartsShape(joins: seq<Join>)
    ensures FilterMap(JoinPart, joins) == [] <==> forall k :: 0 <= k < |joins| ==> joins[k].rightTable == []
    ensures (forall k :: 0 <= k < |joins| ==> joins[k].rightTable != []) ==>
      |FilterMap(JoinPart, joins)| == |joins|
      && forall k :: 0 <= k < |joins| ==> Some(FilterMap(JoinPart, joins)[k]) == JoinPart(joins[k])
  {
    FilterMapEmpty(JoinPart, joins);
    forall k | 0 <= k < |joins|
      ensures JoinPart(joins[k]).None? <==> joins[k].rightTable == []
    {
      JoinPartShape(joins[k]);
    }
    if forall k :: 0 <= k < |joins| ==> joins[k].rightTable != [] {
      FilterMapAll(JoinPart, joins);
    }
  }

  // ---------------------------------------------------------------------
  // WHERE

  /** A filter is written out when it has a field and an operator. */
  predicate Emitted(f: Filter) {
    f.field != [] && f.op != []
  }

  /**
   * The text of one written-out filter, by its upper-cased operator:
   * `IS [NOT] NULL` without a value, `BETWEEN` with the first two
   * comma-separated pieces of the value (`NULL` for a missing second piece),
   * and every other operator followed by the value as a literal.
   */
  function FilterText(f: Filter): string {
    var field := QuoteIdentifier(f.field);
    var op := Upper(f.op);
    if op == "IS NULL" || op == "IS NOT NULL" then field + " " + op
    else if op == "IN" then field + " IN " + Literal(Some(f.value))
    else if op == "BETWEEN" then
      var pieces := SplitOn(f.value, ',');
      field + " BETWEEN " + Literal(Some(pieces[0])) + " AND " + Literal(if |pieces| > 1 then Some(pieces[1]) else None)
    else if op == "LIKE" then field + " LIKE " + Literal(Some(f.value))
    else field + " " + op + " " + Literal(Some(f.value))
  }

  /** The connective written after a filter: its `logic` upper-cased, `AND` by default. */
  function Connective(f: Filter): string {
    Upper(if f.logic != [] then f.logic else "AND")
  }

  /** One entry of the WHERE list: the text of a filter, or the connective written after it. */
  datatype WherePiece = Condition(filter: Filter) | Logic(filter: Filter)

  function PieceText(p: WherePiece): string {
    match p
    case Condition(f) => FilterText(f)
    case Logic(f) => Connective(f)
  }

  /**
   * What round `i` of the WHERE loop pushes: nothing for a filter that is
   * skipped, else its text followed by its connective unless it is the last
   * filter of the list.
   */
  function WhereStep(filters: seq<Filter>, i: nat): seq<WherePiece>
    requires i < |filters|
  {
    if !Emitted(filters[i]) then []
    else [Condition(filters[i])] + (if i < |filters| - 1 then [Logic(filters[i])] else [])
  }

  /** What the WHERE loop has pushed after its first `i` rounds. */
  function WherePrefix(filters: seq<Filter>, i: nat): seq<WherePiece>
    requires i <= |filters|
    decreases i
  {
    if i == 0 then [] else WherePrefix(filters, i - 1) + WhereStep(filters, i - 1)
  }

  /** The WHERE list in full. */
  function WherePieces(filters: seq<Filter>): seq<WherePiece> {
    WherePrefix(filters, |filters|)
  }

  /** The texts of the WHERE list, which the statement joins with single blanks. */
  function WhereParts(filters: seq<Filter>): seq<string> {
    Map(PieceText, WherePieces(filters))
  }

  /** The WHERE loop of `buildSingleSQL`. */
  method BuildWhereParts(filters: seq<Filter>) returns (whereParts: seq<string>)
    ensures whereParts == WhereParts(filters)
  {
    whereParts := [];
    for i := 0 to |filters|
      invariant whereParts == Map(PieceText, WherePrefix(filters, i))
    {
      var f := filters[i];
      if f.field == [] || f.op == [] {
        assert WhereStep(filters, i) == [];
        assert WherePrefix(filters, i + 1) == WherePrefix(filters, i);
        continue;
      }
      ghost var before := WherePrefix(filters, i);
      var part := FilterText(f);
      whereParts := whereParts + [part];
      var logic := Connective(f);
      if i < |filters| - 1 {
        whereParts := whereParts + [logic];
      }
      PushedPieces(filters, i, before, whereParts);
    }
  }

  /** One round of the WHERE loop keeps the texts pushed so far equal to the texts of the pieces. */
  lemma PushedPieces(filters: seq<Filter>, i: nat, before: seq<WherePiece>, pushed: seq<string>)
    requires i < |filters| && Emitted(filters[i]) && before == WherePrefix(filters, i)
    requires pushed == Map(PieceText, before) + [FilterText(filters[i])]
      + (if i < |filters| - 1 then [Connective(filters[i])] else [])
    ensures pushed == Map(PieceText, WherePrefix(filters, i + 1))
  {
    var step := WhereStep(filters, i);
    MapAppend(PieceText, before, step);
    if i < |filters| - 1 {
      assert Map(PieceText, step) == Map(PieceText, [Condition(filters[i])]) + [Connective(filters[i])];
    }
  }

  /** Each filter's text followed by its connective, for every filter of `fs`. */
  function Pairs(fs: seq<Filter>): (r: seq<WherePiece>)
    ensures |r| == 2 * |fs|
    decreases |fs|
  {
    if fs == [] then [] else Pairs(fs[..|fs| - 1]) + [Condition(fs[|fs| - 1]), Logic(fs[|fs| - 1])]
  }

  /** When every filter is written out, each round pushes a text and a connective, up to the last round. */
  lemma {:induction false} WherePrefixPairs(filters: seq<Filter>, i: nat)
    requires i < |filters|
    requires forall k :: 0 <= k < |filters| ==> Emitted(filters[k])
    ensures WherePrefix(filters, i) == Pairs(filters[..i])
    decreases i
  {
    if i > 0 {
      WherePrefixPairs(filters, i - 1);
      assert filters[..i][..i - 1] == filters[..i - 1];
    }
  }

  /**
   * When every filter is written out, the WHERE list alternates: every
   * filter's text is followed by its connective, except the last filter's,
   * which closes the list.
   */
  lemma WherePiecesAlternate(filters: seq<Filter>)
    requires filters != []
    requires forall k :: 0 <= k < |filters| ==> Emitted(filters[k])
    ensures WherePieces(filters) == Pairs(filters[..|filters| - 1]) + [Condition(filters[|filters| - 1])]
  {
    WherePrefixPairs(filters, |filters| - 1);
  }

  /** Rounds that skip their filter push nothing. */
  lemma {:induction false} WherePrefixSkipped(filters: seq<Filter>, a: nat, b: nat)
    requires a <= b <= |filters|
    requires forall k :: a <= k < b ==> !Emitted(filters[k])
    ensures WherePrefix(filters, b) == WherePrefix(filters, a)
    decreases b
  {
    if b > a {
      WherePrefixSkipped(filters, a, b - 1);
    }
  }

  /**
   * The connective after a filter is decided by its place in the whole list,
   * not among the filters written out: when every filter after the `j`-th is
   * skipped, the WHERE list ends with the `j`-th filter's connective.
   */
  lemma WhereDanglingConnective(filters: seq<Filter>, j: nat)
    requires j < |filters| - 1 && Emitted(filters[j])
    requires forall k :: j < k < |filters| ==> !Emitted(filters[k])
    ensures WherePieces(filters) != []
    ensures WherePieces(filters)[|WherePieces(filters)| - 1] == Logic(filters[j])
  {
    WherePrefixSkipped(filters, j + 1, |filters|);
  }

  /** When the last filter is written out, the WHERE list ends with its text. */
  lemma WhereEndsWithLast(filters: seq<Filter>)
    requires filters != [] && Emitted(filters[|filters| - 1])
    ensures WherePieces(filters) != []
    ensures WherePieces(filters)[|WherePieces(filters)| - 1] == Condition(filters[|filters| - 1])
  {
  }

  /** Later rounds only push: the list never gets shorter. */
  lemma {:induction false} WherePrefixGrows(filters: seq<Filter>, a: nat, b: nat)
    requires a <= b <= |filters|
    ensures |WherePrefix(filters, a)| <= |WherePrefix(filters, b)|
    decreases b
  {
    if b > a {
      WherePrefixGrows(filters, a, b - 1);
    }
  }

  /** A filter that is written out leaves a WHERE list. */
  lemma EmittedPushes(filters: seq<Filter>, j: nat)
    requires j < |filters| && Emitted(filters[j])
    ensures WherePieces(filters) != []
  {
    WherePrefixGrows(filters, j + 1, |filters|);
  }

  /** There is no WHERE list exactly when no filter is written out. */
  lemma WherePiecesNone(filters: seq<Filter>)
    ensures WherePieces(filters) == [] <==> forall k :: 0 <= k < |filters| ==> !Emitted(filters[k])
  {
    forall j | 0 <= j < |filters| && Emitted(filters[j])
      ensures WherePieces(filters) != []
    {
      EmittedPushes(filters, j);
    }
    if forall k :: 0 <= k < |filters| ==> !Emitted(filters[k]) {
      WherePrefixSkipped(filters, 0, |filters|);
    }
  }

  /** `BETWEEN` quotes the first two comma-separated pieces of the value, and writes `NULL` for a missing second. */
  lemma BetweenPieces(f: Filter)
    requires Upper(f.op) == "BETWEEN"
    ensures var pieces := SplitOn(f.value, ',');
      FilterText(f) == QuoteIdentifier(f.field) + " BETWEEN " + Literal(Some(pieces[0])) + " AND "
        + (if |pieces| > 1 then Literal(Some(pieces[1])) else "NULL")
  {
  }

  // ---------------------------------------------------------------------
  // GROUP BY, ORDER BY, LIMIT, OFFSET

  function GroupSection(groupBy: seq<string>): string {
    if groupBy != [] then "\nGROUP BY " + Joined(Map(QuoteIdentifier, groupBy), ", ") else ""
  }

  /** `field dir`, with `ASC` for an empty direction. */
  function OrderText(o: OrderItem): string {
    QuoteIdentifier(o.field) + " " + (if o.dir != [] then o.dir else "ASC")
  }

  function OrderSection(orderBy: seq<OrderItem>): string {
    if orderBy != [] then "\nORDER BY " + Joined(Map(OrderText, orderBy), ", ") else ""
  }

  function LimitSection(limit: Option<nat>): string {
    if limit.Some? then "\nLIMIT " + NatToString(limit.value) else ""
  }

  function OffsetSection(offset: Option<nat>): string {
    if offset.Some? then "\nOFFSET " + NatToString(offset.value) else ""
  }

  // ---------------------------------------------------------------------
  // One statement

  /** The statement over the table `base`, with the WHERE pieces `where`. */
  function StatementText(q: Query, base: string, where: seq<string>): string {
    var joins := FilterMap(JoinPart, q.joins);
    "SELECT\n  " + Joined(SelectParts(q.fields), ",\n  ") + "\nFROM " + QuoteIdentifier(base)
    + (if joins != [] then "\n" + Joined(joins, "\n") else "")
    + (if where != [] then "\nWHERE " + Joined(where, " ") else "")
    + GroupSection(q.groupBy) + OrderSection(q.orderBy) + LimitSection(q.limit) + OffsetSection(q.offset)
  }

  /** What `buildSingleSQL` returns. */
  function SingleSql(q: Query): string {
    match BaseTable(q)
    case None => Placeholder
    case Some(base) => StatementText(q, base, WhereParts(q.filters))
  }

  /** `buildSingleSQL`. */
  method BuildSingleSql(q: Query) returns (sql: string)
    ensures sql == SingleSql(q)
  {
    var baseTable := BaseTable(q);
    if baseTable.None? {
      return Placeholder;
    }
    var whereParts := BuildWhereParts(q.filters);
    sql := StatementText(q, baseTable.value, whereParts);
  }

  /** Every statement starts with `SELECT`. */
  lemma StatementStart(q: Query, base: string, where: seq<string>)
    ensures |StatementText(q, base, where)| > 6 && StatementText(q, base, where)[..6] == "SELECT"
  {
    var rest := Joined(SelectParts(q.fields), ",\n  ") + "\nFROM " + QuoteIdentifier(base);
    assert StatementText(q, base, where)[..6] == ("SELECT\n  " + rest)[..6];
  }

  /**
   * The placeholder comes back exactly when there is no table to read from;
   * otherwise the text is a statement starting with `SELECT`.
   */
  lemma SingleSqlPlaceholder(q: Query)
    ensures SingleSql(q) == Placeholder <==> BaseTable(q).None?
    ensures BaseTable(q).Some? ==> |SingleSql(q)| > 6 && SingleSql(q)[..6] == "SELECT"
  {
    if BaseTable(q).Some? {
      StatementStart(q, BaseTable(q).value, WhereParts(q.filters));
      assert Placeholder[0] == '-';
      assert SingleSql(q)[0] == 'S';
    }
  }

  /** The statement never comes back empty. */
  lemma SingleSqlNonEmpty(q: Query)
    ensures SingleSql(q) != []
  {
    SingleSqlPlaceholder(q);
  }

  // ---------------------------------------------------------------------
  // UNION chains and the WITH section

  /** The statements of a chain, each as `buildSingleSQL` writes it. */
  function Statements(queries: seq<Query>): (r: seq<string>)
    ensures |r| == |queries|
  {
    Map(SingleSql, queries)
  }

  /** Statement `i` of a chain is the text of query `i`. */
  lemma StatementAt(queries: seq<Query>, i: nat)
    requires i < |queries|
    ensures Statements(queries)[i] == SingleSql(queries[i])
  {
    MapEach(SingleSql, queries);
  }

  /** The word joining a statement to the one before it: `UNION ALL` when the later statement is flagged. */
  function UnionWord(q: Query): string {
    if q.unionAllNext then "UNION ALL" else "UNION"
  }

  /**
   * Part `i` of a CTE body, where `sql` is the text of statement `i`: the
   * first statement alone, every later one after its UNION word and a line
   * break.
   */
  function CtePart(queries: seq<Query>, sql: string, i: nat): string
    requires i < |queries|
  {
    if i == 0 then sql else UnionWord(queries[i]) + "\n" + sql
  }

  /** What the loop of `buildCTESQL` has pushed after its first `i` rounds. */
  function CtePartsPrefix(queries: seq<Query>, sqls: seq<string>, i: nat): (r: seq<string>)
    requires |sqls| == |queries| && i <= |queries|
    ensures |r| == i
    decreases i
  {
    if i == 0 then [] else CtePartsPrefix(queries, sqls, i - 1) + [CtePart(queries, sqls[i - 1], i - 1)]
  }

  /** The parts pushed are the parts of the statements, one per round. */
  lemma {:induction false} CtePartsEach(queries: seq<Query>, sqls: seq<string>, i: nat)
    requires |sqls| == |queries| && i <= |queries|
    ensures forall k :: 0 <= k < i ==> CtePartsPrefix(queries, sqls, i)[k] == CtePart(queries, sqls[k], k)
    decreases i
  {
    if i > 0 {
      CtePartsEach(queries, sqls, i - 1);
    }
  }

  /** What `buildCTESQL` returns: the parts on separate lines, or nothing for a CTE without queries. */
  function CteSql(cte: Cte): string {
    if cte.queries == [] then ""
    else Joined(CtePartsPrefix(cte.queries, Statements(cte.queries), |cte.queries|), "\n")
  }

  /** `buildCTESQL`. */
  method BuildCteSql(cte: Cte) returns (sql: string)
    ensures sql == CteSql(cte)
  {
    var cteQueries := cte.queries;
    if |cteQueries| == 0 {
      return "";
    }
    ghost var sqls := Statements(cteQueries);
    var queryParts := [];
    for i := 0 to |cteQueries|
      invariant queryParts == CtePartsPrefix(cteQueries, sqls, i)
    {
      var q := cteQueries[i];
      var single := BuildSingleSql(q);
      StatementAt(cteQueries, i);
      if i == 0 {
        queryParts := queryParts + [single];
      } else {
        queryParts := queryParts + [UnionWord(q) + "\n" + single];
      }
    }
    sql := Joined(queryParts, "\n");
  }

  /** Part `i` of the main chain: the first statement alone, every later one after a line break, its UNION word and a line break. */
  function MainPart(queries: seq<Query>, sql: string, i: nat): string
    requires i < |queries|
  {
    if i == 0 then sql else "\n" + UnionWord(queries[i]) + "\n" + sql
  }

  /** What the main loop of `buildSQLFromQueries` has pushed after its first `i` rounds. */
  function MainPartsPrefix(queries: seq<Query>, sqls: seq<string>, i: nat): (r: seq<string>)
    requires |sqls| == |queries| && i <= |queries|
    ensures |r| == i
    decreases i
  {
    if i == 0 then [] else MainPartsPrefix(queries, sqls, i - 1) + [MainPart(queries, sqls[i - 1], i - 1)]
  }

  /** The main chain: every part, with nothing between them. */
  function MainChain(queries: seq<Query>): string {
    Joined(MainPartsPrefix(queries, Statements(queries), |queries|), "")
  }

  /** A line of a CTE body, indented by two blanks. */
  function IndentLine(line: string): string {
    "  " + line
  }

  /** `text.split('\n').map(line => '  ' + line).join('\n')`. */
  function Indent(text: string): string {
    Joined(Map(IndentLine, SplitOn(text, '\n')), "\n")
  }

  /** `name AS (`, the indented body, and `)` on lines of their own. */
  function CteText(cte: Cte): string {
    cte.name + " AS (\n" + Indent(CteSql(cte)) + "\n)"
  }

  /** The `WITH` section: every CTE, separated by a comma and a line break, and a closing line break. */
  function WithSection(ctes: seq<Cte>): string {
    "WITH " + Joined(Map(CteText, ctes), ",\n") + "\n"
  }

  /** What `buildSQLFromQueries` returns: the `WITH` section when there are CTEs, then the main chain. */
  function SqlFromQueries(queries: seq<Query>, ctes: seq<Cte>): string {
    (if ctes != [] then WithSection(ctes) else "") + MainChain(queries)
  }

  /** `buildSQLFromQueries`. */
  method BuildSqlFromQueries(queries: seq<Query>, ctes: seq<Cte>) returns (sql: string)
    ensures sql == SqlFromQueries(queries, ctes)
  {
    var parts := [];
    if |ctes| > 0 {
      parts := parts + [WithSection(ctes)];
    }
    ghost var withPart := parts;
    ghost var sqls := Statements(queries);
    for i := 0 to |queries|
      invariant parts == withPart + MainPartsPrefix(queries, sqls, i)
    {
      var q := queries[i];
      var single := BuildSingleSql(q);
      StatementAt(queries, i);
      if i == 0 {
        parts := parts + [single];
      } else {
        parts := parts + ["\n" + UnionWord(q) + "\n" + single];
      }
    }
    JoinedEmptyAppend(withPart, MainPartsPrefix(queries, sqls, |queries|));
    if withPart != [] {
      assert Joined(withPart, "") == WithSection(ctes);
    }
    sql := Joined(parts, "");
  }

  /** Joining with no separator is concatenation, piece list by piece list. */
  lemma {:induction false} JoinedEmptyAppend(xs: seq<string>, ys: seq<string>)
    ensures Joined(xs + ys, "") == Joined(xs, "") + Joined(ys, "")
    decreases |xs|
  {
    if xs == [] {
      assert xs + ys == ys;
    } else if |xs| == 1 {
      if ys != [] {
        assert xs + ys == [xs[0]] + ys;
        JoinedEmptyCons(xs[0], ys);
      } else {
        assert xs + ys == xs;
      }
    } else {
      JoinedEmptyAppend(xs[1..], ys);
      assert (xs + ys)[1..] == xs[1..] + ys;
    }
  }

  /** Joining with no separator: the first piece, then the rest. */
  lemma JoinedEmptyCons(x: string, ys: seq<string>)
    requires ys != []
    ensures Joined([x] + ys, "") == x + Joined(ys, "")
  {
    assert ([x] + ys)[1..] == ys;
  }

  /** Joining with a separator: one more piece adds the separator and the piece. */
  lemma {:induction false} JoinedSnoc(xs: seq<string>, y: string, sep: string)
    requires xs != []
    ensures Joined(xs + [y], sep) == Joined(xs, sep) + sep + y
    decreases |xs|
  {
    if |xs| > 1 {
      JoinedSnoc(xs[1..], y, sep);
      assert (xs + [y])[1..] == xs[1..] + [y];
    } else {
      assert (xs + [y])[1..] == [y];
    }
  }

  /**
   * Over the first `i` statements, the main chain is the CTE body chain: the
   * same statements, with the same UNION words, on the same lines.
   */
  lemma {:induction false} MainPartsAreCteParts(queries: seq<Query>, sqls: seq<string>, i: nat)
    requires |sqls| == |queries| && 1 <= i <= |queries|
    ensures Joined(MainPartsPrefix(queries, sqls, i), "") == Joined(CtePartsPrefix(queries, sqls, i), "\n")
    decreases i
  {
    if i > 1 {
      MainPartsAreCteParts(queries, sqls, i - 1);
      JoinedEmptyAppend(MainPartsPrefix(queries, sqls, i - 1), [MainPart(queries, sqls[i - 1], i - 1)]);
      JoinedSnoc(CtePartsPrefix(queries, sqls, i - 1), CtePart(queries, sqls[i - 1], i - 1), "\n");
    }
  }

  /** Without CTEs, the whole text is the chain `buildCTESQL` writes for the same statements. */
  lemma NoCtesIsCteChain(queries: seq<Query>, name: string, index: int)
    requires queries != []
    ensures SqlFromQueries(queries, []) == CteSql(Cte(name, true, queries, index))
  {
    MainPartsAreCteParts(queries, Statements(queries), |queries|);
  }

  /** A single statement without CTEs is written exactly as `buildSingleSQL` writes it. */
  lemma SingleQueryText(q: Query)
    ensures SqlFromQueries([q], []) == SingleSql(q)
  {
    MapEach(SingleSql, [q]);
  }

  /** The text starts with `WITH ` exactly when there are CTEs; without them it is the main chain alone. */
  lemma WithOnlyForCtes(queries: seq<Query>, ctes: seq<Cte>)
    ensures ctes != [] ==> |SqlFromQueries(queries, ctes)| >= 5 && SqlFromQueries(queries, ctes)[..5] == "WITH "
    ensures ctes == [] ==> SqlFromQueries(queries, ctes) == MainChain(queries)
  {
    if ctes != [] {
      assert SqlFromQueries(queries, ctes)[..5] == "WITH ";
    }
  }

  /** Statement `i` of a chain is preceded by `UNION ALL` exactly when it is flagged, and by `UNION` otherwise. */
  lemma LaterFlagDecides(cte: Cte, i: nat)
    requires 0 < i < |cte.queries|
    ensures var sqls := Statements(cte.queries);
      var p := CtePartsPrefix(cte.queries, sqls, |cte.queries|)[i];
      p == (if cte.queries[i].unionAllNext then "UNION ALL" else "UNION") + "\n" + sqls[i]
  {
    CtePartsEach(cte.queries, Statements(cte.queries), |cte.queries|);
  }

  /** The first statement is written alone, without a UNION word. */
  lemma FirstStatementAlone(cte: Cte)
    requires cte.queries != []
    ensures var sqls := Statements(cte.queries);
      CtePartsPrefix(cte.queries, sqls, |cte.queries|)[0] == sqls[0]
  {
    CtePartsEach(cte.queries, Statements(cte.queries), |cte.queries|);
  }

  /** The UNION ALL flag plays no part in how a statement itself is written. */
  lemma SingleSqlIgnoresFlag(q: Query, flag: bool)
    ensures SingleSql(q.(unionAllNext := flag)) == SingleSql(q)
  {
    var p := q.(unionAllNext := flag);
    assert p.selectedTables == q.selectedTables && p.fields == q.fields && p.joins == q.joins;
    assert p.filters == q.filters && p.groupBy == q.groupBy && p.orderBy == q.orderBy;
    assert p.limit == q.limit && p.offset == q.offset;
  }

  /** Chains whose statements after the first carry the same flags push the same parts. */
  lemma {:induction false} CtePartsSameWords(a: seq<Query>, b: seq<Query>, sqls: seq<string>, i: nat)
    requires |a| == |b| == |sqls| && i <= |a|
    requires forall k :: 0 < k < |a| ==> a[k].unionAllNext == b[k].unionAllNext
    ensures CtePartsPrefix(a, sqls, i) == CtePartsPrefix(b, sqls, i)
    decreases i
  {
    if i > 0 {
      CtePartsSameWords(a, b, sqls, i - 1);
    }
  }

  /** The first statement's UNION ALL flag plays no part in the CTE body. */
  lemma FirstFlagIgnored(cte: Cte, flag: bool)
    requires cte.queries != []
    ensures CteSql(cte.(queries := cte.queries[0 := cte.queries[0].(unionAllNext := flag)])) == CteSql(cte)
  {
    var a := cte.queries;
    var b := a[0 := a[0].(unionAllNext := flag)];
    SingleSqlIgnoresFlag(a[0], flag);
    MapEach(SingleSql, a);
    MapEach(SingleSql, b);
    assert Statements(a) == Statements(b);
    CtePartsSameWords(a, b, Statements(a), |a|);
  }

  /** A CTE without statements has an empty body; otherwise the body is not empty. */
  lemma CteSqlEmpty(cte: Cte)
    ensures CteSql(cte) == [] <==> cte.queries == []
  {
    if cte.queries != [] {
      var sqls := Statements(cte.queries);
      var parts := CtePartsPrefix(cte.queries, sqls, |cte.queries|);
      MapEach(SingleSql, cte.queries);
      SingleSqlNonEmpty(cte.queries[0]);
      CtePartsEach(cte.queries, sqls, |cte.queries|);
      JoinedStarts(parts, "\n");
    }
  }

  /** A joined list starts with its first piece. */
  lemma JoinedStarts(xs: seq<string>, sep: string)
    requires xs != []
    ensures |Joined(xs, sep)| >= |xs[0]| && Joined(xs, sep)[..|xs[0]|] == xs[0]
  {
  }

  // ---------------------------------------------------------------------
  // Indentation of a CTE body

  /**
   * Lines that start with two blanks and hold no line break, joined by line
   * breaks: the text starts with two blanks, and so does every line after a
   * line break.
   */
  lemma {:induction false} JoinedIndented(lines: seq<string>)
    requires lines != []
    requires forall i :: 0 <= i < |lines| ==> |lines[i]| >= 2 && lines[i][..2] == "  " && '\n' !in lines[i]
    ensures var t := Joined(lines, "\n");
      |t| >= 2 && t[..2] == "  "
      && forall k :: 0 <= k < |t| && t[k] == '\n' ==> k + 3 <= |t| && t[k + 1..k + 3] == "  "
    decreases |lines|
  {
    var t := Joined(lines, "\n");
    if |lines| > 1 {
      var rest := Joined(lines[1..], "\n");
      JoinedIndented(lines[1..]);
      var n := |lines[0]|;
      assert t == lines[0] + "\n" + rest;
      forall k | 0 <= k < n
        ensures t[k] != '\n'
      {
        assert t[k] == lines[0][k];
      }
      forall k | n <= k < |t| && t[k] == '\n'
        ensures k + 3 <= |t| && t[k + 1..k + 3] == "  "
      {
        if k == n {
          assert t[k + 1..k + 3] == rest[..2];
        } else {
          assert t[k] == rest[k - n - 1] == '\n';
          assert t[k + 1..k + 3] == rest[k - n..k - n + 2];
        }
      }
    }
  }

  /** Every line of an indented CTE body, the first included, starts with two blanks. */
  lemma IndentedLines(text: string)
    ensures var t := Indent(text);
      |t| >= 2 && t[..2] == "  "
      && forall k :: 0 <= k < |t| && t[k] == '\n' ==> k + 3 <= |t| && t[k + 1..k + 3] == "  "
  {
    var pieces := SplitOn(text, '\n');
    JoinedSplitOn(text, '\n');
    MapEach(IndentLine, pieces);
    var lines := Map(IndentLine, pieces);
    forall i | 0 <= i < |lines|
      ensures |lines[i]| >= 2 && lines[i][..2] == "  " && '\n' !in lines[i]
    {
      assert lines[i] == "  " + pieces[i];
      assert lines[i][..2] == "  ";
    }
    JoinedIndented(lines);
  }
}
