/**
 * The top of the parser: `parseCompleteSQL` cleans the text, splits off the
 * CTEs, reads each CTE definition, and reads the main UNION chain; each
 * statement of a chain is read by `parseSelectQuery` from its clauses.
 *
 * Every method here is proved equal to a function of its input text; the
 * functions say, field by field, what the parser builds.
 */
module Parser {
  import opened Wrappers
  import opened Text
  import opened Scan
  import opened QueryModel
  import opened FieldParse
  import opened JoinParse
  import opened CteSplit
  import opened UnionSplit
  import opened Clauses
  import opened ClauseParse
  import opened Lists

  /** A clause text as the parser tests it (`if (parts.where)`): present and not empty. */
  predicate Given(part: Option<string>) {
    part.Some? && part.value != []
  }

  // ---------------------------------------------------------------------
  // One SELECT statement

  /**
   * What `parseSelectQuery` returns: an unnamed query whose lists come from
   * the clauses that are given, each read by its own clause reader, and
   * whose limit and offset come from the LIMIT clause when it matches.
   */
  function SelectQueryOf(queryText: string): Query {
    QueryOfParts(PartsOf(queryText))
  }

  /** The query read from the clause texts of a statement. */
  function QueryOfParts(p: QueryParts): Query {
    var lim := if Given(p.limit) then LimitValuesOf(p.limit.value) else None;
    Query(
      "",
      if Given(p.from) then FromTables(p.from.value) else [],
      if Given(p.select) then SelectFields(p.select.value) else [],
      JoinsOf(p.joins),
      if Given(p.where) then WhereFilters(p.where.value) else [],
      if Given(p.groupBy) then SplitTopLevelCommas(p.groupBy.value) else [],
      if Given(p.orderBy) then OrderItems(p.orderBy.value) else [],
      if lim.Some? then Some(lim.value.limit) else None,
      if lim.Some? then lim.value.offset else None,
      false)
  }

  /**
   * `parseSelectQuery`: start from an empty query and run the reader of each
   * clause that is given, in the order SELECT, FROM, JOIN, WHERE, GROUP BY,
   * ORDER BY, LIMIT.
   */
  method ParseSelectQuery(queryText: string) returns (q: Query)
    ensures q == SelectQueryOf(queryText)
  {
    var parts := SplitQueryIntoParts(queryText);
    q := ReadParts(parts);
  }

  /** The clause readers run one after the other on the parts of a statement, each only when its clause is given. */
  method ReadParts(parts: QueryParts) returns (q: Query)
    ensures q == QueryOfParts(parts)
  {
    q := EmptyQuery("");
    q := ReadSelect(parts, q);
    q := ReadFrom(parts, q);
    q := ReadJoins(parts, q);
    q := ReadWhere(parts, q);
    q := ReadGroupBy(parts, q);
    q := ReadOrderBy(parts, q);
    q := ReadLimit(parts, q);
  }

  /** `if (parts.select) parseSelectClause(...)`. */
  method ReadSelect(parts: QueryParts, query: Query) returns (q: Query)
    ensures q == query.(fields := query.fields + if Given(parts.select) then SelectFields(parts.select.value) else [])
  {
    q := query;
    if Given(parts.select) {
      q := ParseSelectClause(parts.select.value, q);
    }
  }

  /** `if (parts.from) parseFromClause(...)`. */
  method ReadFrom(parts: QueryParts, query: Query) returns (q: Query)
    ensures q == query.(selectedTables := query.selectedTables + if Given(parts.from) then FromTables(parts.from.value) else [])
  {
    q := query;
    if Given(parts.from) {
      q := ParseFromClause(parts.from.value, q);
    }
  }

  /** `if (parts.joins) parseJoins(...)`: the JOIN list is only set when a JOIN was found. */
  method ReadJoins(parts: QueryParts, query: Query) returns (q: Query)
    ensures q == query.(joins := query.joins + JoinsOf(parts.joins))
  {
    q := query;
    if parts.joins != [] {
      q := ParseJoins(parts.joins, q);
    } else {
      assert JoinsOf(parts.joins) == [];
    }
  }

  /** `if (parts.where) parseWhereClause(...)`. */
  method ReadWhere(parts: QueryParts, query: Query) returns (q: Query)
    ensures q == query.(filters := query.filters + if Given(parts.where) then WhereFilters(parts.where.value) else [])
  {
    q := query;
    if Given(parts.where) {
      q := ParseWhereClause(parts.where.value, q);
    }
  }

  /** `if (parts.groupBy) parseGroupByClause(...)`: the list is replaced, not extended. */
  method ReadGroupBy(parts: QueryParts, query: Query) returns (q: Query)
    ensures q == query.(groupBy := if Given(parts.groupBy) then SplitTopLevelCommas(parts.groupBy.value) else query.groupBy)
  {
    q := query;
    if Given(parts.groupBy) {
      q := ParseGroupByClause(parts.groupBy.value, q);
    }
  }

  /** `if (parts.orderBy) parseOrderByClause(...)`. */
  method ReadOrderBy(parts: QueryParts, query: Query) returns (q: Query)
    ensures q == query.(orderBy := query.orderBy + if Given(parts.orderBy) then OrderItems(parts.orderBy.value) else [])
  {
    q := query;
    if Given(parts.orderBy) {
      q := ParseOrderByClause(parts.orderBy.value, q);
    }
  }

  /** `if (parts.limit) parseLimitClause(...)`: the limit, and the offset when one is written, replace the old values. */
  method ReadLimit(parts: QueryParts, query: Query) returns (q: Query)
    ensures var lim := if Given(parts.limit) then LimitValuesOf(parts.limit.value) else None;
      q == if lim.None? then query
        else query.(limit := Some(lim.value.limit), offset := if lim.value.offset.Some? then lim.value.offset else query.offset)
  {
    q := query;
    if Given(parts.limit) {
      q := ParseLimitClause(parts.limit.value, q);
    }
  }

  /**
   * What every query the parser builds looks like: at most one table, each
   * field's aggregate one of the five (or none), each join of one of the
   * four kinds and with a table, each filter a read condition with `AND` or
   * `OR`, each order direction `ASC` or `DESC`, and an offset only together
   * with a limit.
   */
  predicate WellRead(q: Query) {
    |q.selectedTables| <= 1
    && (forall f :: f in q.fields ==> f.agg == "" || f.agg in AggNames)
    && (forall j :: j in q.joins ==> j.kind in JoinKinds && j.rightTable != [])
    && (forall f :: f in q.filters ==> ReadFilter(f) && (f.logic == "AND" || f.logic == "OR"))
    && (forall o :: o in q.orderBy ==> o.dir == "ASC" || o.dir == "DESC")
    && (q.offset.Some? ==> q.limit.Some?)
  }

  /** Every statement reads as a well-formed query, whatever its text. */
  lemma SelectQueryWellRead(queryText: string)
    ensures WellRead(SelectQueryOf(queryText))
  {
    var p := PartsOf(queryText);
    var q := SelectQueryOf(queryText);
    if Given(p.select) {
      SelectFieldsEach(p.select.value);
    }
    JoinsOfShape(p.joins);
    if Given(p.where) {
      WhereFiltersShape(p.where.value);
    }
    if Given(p.orderBy) {
      OrderItemsEach(p.orderBy.value);
    }
    FromTablesAtMostOne(p.from);
    FieldsAggregates(q.fields);
  }

  /** The FROM reader gives at most one table. */
  lemma FromTablesAtMostOne(from: Option<string>)
    ensures |if Given(from) then FromTables(from.value) else []| <= 1
  {
  }

  /** Every field `ParseField` builds names one of the five aggregates, or none. */
  lemma FieldsAggregates(fields: seq<Field>)
    requires forall k :: 0 <= k < |fields| ==> exists t :: fields[k] == ParseField(t)
    ensures forall f :: f in fields ==> f.agg == "" || f.agg in AggNames
  {
  }

  /** The statement keeps one field per top-level comma piece of its SELECT list, each read by `ParseField`. */
  lemma SelectQueryFields(queryText: string)
    requires Given(PartsOf(queryText).select)
    ensures var pieces := SplitTopLevelCommas(PartsOf(queryText).select.value);
      var q := SelectQueryOf(queryText);
      |q.fields| == |pieces| && forall k :: 0 <= k < |pieces| ==> q.fields[k] == ParseField(pieces[k])
  {
    SelectFieldsEach(PartsOf(queryText).select.value);
  }

  // ---------------------------------------------------------------------
  // A UNION chain

  /** Query `k` of a chain: the statement of part `k`, named by its position, flagged when `UNION ALL` came before it. */
  function ChainQuery(part: UnionPart, k: nat): Query {
    SelectQueryOf(part.query).(unionAllNext := part.isUnionAll, name := QueryName(k + 1))
  }

  /** What `parseUnionQueries` returns: one query per part of the split, in order. */
  function UnionQueries(queryText: string): seq<Query> {
    var parts := UnionParts(queryText);
    seq(|parts|, k requires 0 <= k < |parts| => ChainQuery(parts[k], k))
  }

  /** `parseUnionQueries`: split at top-level UNIONs and read every part; a part never fails to read. */
  method ParseUnionQueries(queryText: string) returns (queries: seq<Query>)
    ensures queries == UnionQueries(queryText)
  {
    var parts := SplitByUnion(queryText);
    queries := [];
    var i := 0;
    while i < |parts|
      invariant i <= |parts|
      invariant queries == MapIndexed(ChainQuery, parts[..i])
    {
      var query := ParseSelectQuery(parts[i].query);
      query := query.(unionAllNext := parts[i].isUnionAll, name := QueryName(i + 1));
      MapIndexedSnoc(ChainQuery, parts, i);
      queries := queries + [query];
      i := i + 1;
    }
    assert parts[..|parts|] == parts;
    UnionQueriesIndexed(queryText);
  }

  /** The chain is the indexed map of `ChainQuery` over the parts. */
  lemma UnionQueriesIndexed(queryText: string)
    ensures UnionQueries(queryText) == MapIndexed(ChainQuery, UnionParts(queryText))
  {
    MapIndexedEach(ChainQuery, UnionParts(queryText));
  }

  /** Different positions get different names. */
  lemma QueryNamesDistinct(m: nat, n: nat)
    requires m != n
    ensures QueryName(m) != QueryName(n)
  {
    var prefix := "Запрос ";
    assert QueryName(m)[|prefix|..] == NatToString(m);
    assert QueryName(n)[|prefix|..] == NatToString(n);
    DigitsOfNat(m);
    DigitsOfNat(n);
  }

  /**
   * The chain has one query per part, named `Запрос 1`, `Запрос 2`, ... in
   * order, each with the flag of the UNION before it; the first query never
   * follows a UNION, and no two queries share a name.
   */
  lemma UnionQueriesNamed(queryText: string)
    ensures var parts := UnionParts(queryText); var qs := UnionQueries(queryText);
      |qs| == |parts|
      && (forall k :: 0 <= k < |qs| ==> qs[k].name == QueryName(k + 1) && qs[k].unionAllNext == parts[k].isUnionAll)
      && (qs != [] ==> !qs[0].unionAllNext)
      && (forall j, k :: 0 <= j < k < |qs| ==> qs[j].name != qs[k].name)
  {
    UnionPartsShape(queryText);
    var qs := UnionQueries(queryText);
    forall j, k | 0 <= j < k < |qs|
      ensures qs[j].name != qs[k].name
    {
      QueryNamesDistinct(j + 1, k + 1);
    }
  }

  /** A chain has no queries exactly when its text is blank. */
  lemma UnionQueriesBlank(queryText: string)
    ensures UnionQueries(queryText) == [] <==> Trim(queryText) == []
  {
    UnionPartsBlank(queryText);
  }

  /** Every query of a chain is well-formed. */
  lemma UnionQueriesWellRead(queryText: string)
    ensures forall q :: q in UnionQueries(queryText) ==> WellRead(q)
  {
    var parts := UnionParts(queryText);
    var qs := UnionQueries(queryText);
    forall k | 0 <= k < |qs|
      ensures WellRead(qs[k])
    {
      SelectQueryWellRead(parts[k].query);
    }
  }

  // ---------------------------------------------------------------------
  // CTEs

  /** What `parseSingleCTE` returns: a CTE named as written, with the chain of its body, or nothing when the text does not match. */
  function CteOf(cteText: string): (r: Option<Cte>)
    ensures r.Some? <==> MatchCteDef(cteText).Some?
  {
    match MatchCteDef(cteText)
    case None => None
    case Some(d) => Some(Cte(d.name, true, UnionQueries(d.body), 0))
  }

  /** `parseSingleCTE`. */
  method ParseSingleCte(cteText: string) returns (r: Option<Cte>)
    ensures r == CteOf(cteText)
  {
    var m := MatchCteDef(cteText);
    if m.None? {
      return None;
    }
    var queries := ParseUnionQueries(m.value.body);
    r := Some(Cte(m.value.name, true, queries, 0));
  }

  /** A definition written `name AS (body)` reads as the CTE `name` with the chain of `body`, its first query current. */
  lemma CteRoundTrip(name: string, body: string)
    requires name != [] && AllWordChars(name)
    requires body != [] && NoLineTerminator(body)
    ensures CteOf(name + " AS (" + body + ")") == Some(Cte(name, true, UnionQueries(body), 0))
  {
    CteDefRoundTrip(name, body);
  }

  /** One comma piece of the CTE text, trimmed again before it is read. */
  function CteOfDefinition(definition: string): Option<Cte> {
    CteOf(Trim(definition))
  }

  /** What `parseCTEs` returns: the definitions that match, in order. */
  function CtesOf(ctesText: string): seq<Cte> {
    FilterMap(CteOfDefinition, SplitTopLevelCommas(ctesText))
  }

  /**
   * `parseCTEs`: split the CTE text at top-level commas and push each
   * trimmed definition that `parseSingleCTE` reads.
   */
  method ParseCtes(ctesText: string) returns (ctes: seq<Cte>)
    ensures ctes == CtesOf(ctesText)
  {
    var definitions := SplitCteDefinitions(ctesText);
    ctes := PushPresent(CteOfDefinition, definitions, []);
    assert [] + CtesOf(ctesText) == CtesOf(ctesText);
  }

  /**
   * At most one CTE per definition; each is marked as a CTE, has its first
   * query current, a name made of word characters, and comes from one of
   * the definitions.
   */
  lemma CtesShape(ctesText: string)
    ensures var defs := SplitTopLevelCommas(ctesText);
      |CtesOf(ctesText)| <= |defs|
      && forall c :: c in CtesOf(ctesText) ==>
        c.isCte && c.currentQueryIndex == 0 && c.name != [] && AllWordChars(c.name)
        && exists k :: 0 <= k < |defs| && CteOfDefinition(defs[k]) == Some(c)
  {
    var defs := SplitTopLevelCommas(ctesText);
    FilterMapFrom(CteOfDefinition, defs);
  }

  // ---------------------------------------------------------------------
  // The whole statement

  /** `sqlText.trim().replace(/\s+/g, ' ')`. */
  function CleanSql(sqlText: string): string {
    CollapseWs(Trim(sqlText))
  }

  /**
   * What `parseCompleteSQL` returns: nothing (the call throws) for an empty
   * text; otherwise the CTEs, when there is a non-empty CTE part, and the
   * main chain, when there is a non-empty main part.
   */
  function DocumentOf(sqlText: string): (r: Option<Document>)
    ensures r.None? <==> sqlText == []
  {
    if sqlText == [] then None
    else
      var parts := SeparateParts(CleanSql(sqlText));
      Some(Document(
        if Given(parts.ctesPart) then CtesOf(parts.ctesPart.value) else [],
        if parts.mainPart != [] then UnionQueries(parts.mainPart) else []))
  }

  /** `parseCompleteSQL`. */
  method ParseCompleteSql(sqlText: string) returns (r: Option<Document>)
    ensures r == DocumentOf(sqlText)
  {
    if sqlText == [] {
      return None;
    }
    var cleanSql := CollapseWs(Trim(sqlText));
    var parts := SeparateCtesFromMain(cleanSql);
    var ctes := [];
    var queries := [];
    if Given(parts.ctesPart) {
      ctes := ParseCtes(parts.ctesPart.value);
    }
    if parts.mainPart != [] {
      queries := ParseUnionQueries(parts.mainPart);
    }
    r := Some(Document(ctes, queries));
  }

  /** A text made only of whitespace reads as a document with no CTEs and no queries. */
  lemma BlankSqlIsEmpty(sqlText: string)
    requires sqlText != [] && forall k :: 0 <= k < |sqlText| ==> IsSpace(sqlText[k])
    ensures DocumentOf(sqlText) == Some(Document([], []))
  {
    var a := TrimSlice(sqlText);
    assert CleanSql(sqlText) == [];
  }

  /** Without a leading `WITH`, there are no CTEs and the main chain is read from the whole cleaned text. */
  lemma PlainStatement(sqlText: string)
    requires sqlText != [] && !StartsWithWith(CleanSql(sqlText))
    ensures DocumentOf(sqlText) == Some(Document([], UnionQueries(CleanSql(sqlText))))
  {
    var clean := CleanSql(sqlText);
    NoWithKeepsAll(clean);
    if clean == [] {
      UnionQueriesBlank(clean);
    }
  }

  /** Every query of the document, in the main chain and in every CTE, is well-formed. */
  lemma DocumentWellRead(sqlText: string)
    requires sqlText != []
    ensures var d := DocumentOf(sqlText).value;
      (forall q :: q in d.queries ==> WellRead(q))
      && (forall c :: c in d.ctes ==> forall q :: q in c.queries ==> WellRead(q))
  {
    var parts := SeparateParts(CleanSql(sqlText));
    var d := DocumentOf(sqlText).value;
    if parts.mainPart != [] {
      UnionQueriesWellRead(parts.mainPart);
    }
    if Given(parts.ctesPart) {
      var defs := SplitTopLevelCommas(parts.ctesPart.value);
      CtesShape(parts.ctesPart.value);
      forall c | c in d.ctes
        ensures forall q :: q in c.queries ==> WellRead(q)
      {
        var k :| 0 <= k < |defs| && CteOfDefinition(defs[k]) == Some(c);
        var m := MatchCteDef(Trim(defs[k])).value;
        UnionQueriesWellRead(m.body);
      }
    }
  }
}
