/**
 * Reading the clauses of one statement into its query record: the SELECT
 * list into fields, the FROM text into its table, the JOIN clauses into
 * joins, the WHERE text into filters, GROUP BY into a list of expressions,
 * ORDER BY into order items and LIMIT into the limit and offset.
 *
 * Each `parse...Clause` of the parser pushes onto one list of the query (or
 * sets one of its fields); here each is a method from the query before to
 * the query after, proved equal to a function of the clause text.
 */
module ClauseParse {
  import opened Wrappers
  import opened Text
  import opened Scan
  import opened Patterns
  import opened QueryModel
  import opened FieldParse
  import opened Conditions
  import opened JoinParse
  import opened Clauses
  import opened Lists

  // ---------------------------------------------------------------------
  // SELECT

  /** A SELECT list piece read as a field, after trimming it once more. */
  function FieldOfPiece(piece: string): Field {
    ParseField(Trim(piece))
  }

  /** The fields of a SELECT list: one per comma piece, in order. */
  function SelectFields(selectText: string): seq<Field> {
    Map(FieldOfPiece, SplitTopLevelCommas(selectText))
  }

  /**
   * Reading a field never fails, so every piece of the list gives exactly
   * one field, in order, and the second trim changes nothing.
   */
  lemma SelectFieldsEach(selectText: string)
    ensures var pieces := SplitTopLevelCommas(selectText);
      |SelectFields(selectText)| == |pieces|
      && forall k :: 0 <= k < |pieces| ==> SelectFields(selectText)[k] == ParseField(pieces[k])
  {
    var pieces := SplitTopLevelCommas(selectText);
    MapEach(FieldOfPiece, pieces);
    SplitPiecesAreTrimmed(selectText);
  }

  /** `parseSelectClause`: the fields of the comma pieces are appended to the query's fields. */
  method ParseSelectClause(selectText: string, query: Query) returns (q: Query)
    ensures q == query.(fields := query.fields + SelectFields(selectText))
  {
    var pieces := SplitByCommaRespectingParentheses(selectText);
    var fields := PushEach(FieldOfPiece, pieces, query.fields);
    q := query.(fields := fields);
  }

  // ---------------------------------------------------------------------
  // FROM

  /** `s.split(/\s+/)[0]`: the text before the first blank, or all of it. */
  function FirstToken(s: string): (r: string)
    ensures |r| <= |s| && r == s[..|r|] && NoSpace(r)
    ensures |r| == |s| || IsSpace(s[|r|])
    decreases |s|
  {
    if s == [] || IsSpace(s[0]) then [] else [s[0]] + FirstToken(s[1..])
  }

  /** The table of a FROM text, when it has one. */
  function FromTables(fromText: string): (r: seq<string>)
    ensures |r| <= 1
    ensures r != [] <==> fromText != [] && !IsSpace(fromText[0])
  {
    var t := FirstToken(fromText);
    if t != [] then [t] else []
  }

  /** `parseFromClause`: the first word of the FROM text, if any, is appended to the selected tables. */
  method ParseFromClause(fromText: string, query: Query) returns (q: Query)
    ensures q == query.(selectedTables := query.selectedTables + FromTables(fromText))
  {
    var tableName := FirstToken(fromText);
    q := query;
    if tableName != [] {
      q := q.(selectedTables := q.selectedTables + [tableName]);
    }
  }

  /** A table name followed by a blank and anything else: the table is what the FROM clause reads. */
  lemma FromTableWritten(table: string, w: char, rest: string)
    requires table != [] && NoSpace(table) && IsSpace(w)
    ensures FromTables(table + [w] + rest) == [table]
  {
    var s := table + [w] + rest;
    var r := FirstToken(s);
    assert forall k :: 0 <= k < |table| ==> s[k] == table[k] && !IsSpace(s[k]);
    assert IsSpace(s[|table|]);
    assert |r| == |table|;
    assert r == s[..|table|] == table;
  }

  /** Only the first word of the FROM text is read: anything after the first blank is ignored. */
  lemma FromFirstWordOnly(fromText: string)
    ensures forall t :: t in FromTables(fromText) ==> t != [] && NoSpace(t) && fromText[..|t|] == t
  {
  }

  // ---------------------------------------------------------------------
  // JOIN

  /** The joins of the JOIN clauses that match the JOIN pattern, in order. */
  function JoinsOf(texts: seq<string>): seq<Join> {
    FilterMap(ParseJoin, texts)
  }

  /**
   * At most one join per clause; every join comes from one of the clauses
   * and has an upper-case kind and a table name of word characters.
   */
  lemma JoinsOfShape(texts: seq<string>)
    ensures |JoinsOf(texts)| <= |texts|
    ensures forall j :: j in JoinsOf(texts) ==>
      (exists k :: 0 <= k < |texts| && ParseJoin(texts[k]) == Some(j))
      && j.kind in JoinKinds && j.rightTable != [] && AllWordChars(j.rightTable)
  {
    FilterMapFrom(ParseJoin, texts);
    forall j | j in JoinsOf(texts)
      ensures j.kind in JoinKinds && j.rightTable != [] && AllWordChars(j.rightTable)
    {
      var k :| 0 <= k < |texts| && ParseJoin(texts[k]) == Some(j);
      ParseJoinShape(texts[k]);
    }
  }

  /** When every clause matches the JOIN pattern, every clause gives its join, in order. */
  lemma JoinsOfAllMatch(texts: seq<string>)
    requires forall k :: 0 <= k < |texts| ==> MatchJoin(texts[k]).Some?
    ensures |JoinsOf(texts)| == |texts|
    ensures forall k :: 0 <= k < |texts| ==> Some(JoinsOf(texts)[k]) == ParseJoin(texts[k])
  {
    FilterMapAll(ParseJoin, texts);
  }

  /** `parseJoins`: the joins that parse are appended to the query's joins; the others are dropped. */
  method ParseJoins(joinTexts: seq<string>, query: Query) returns (q: Query)
    ensures q == query.(joins := query.joins + JoinsOf(joinTexts))
  {
    var joins := PushPresent(ParseJoin, joinTexts, query.joins);
    q := query.(joins := joins);
  }

  // ---------------------------------------------------------------------
  // WHERE

  /** The connective stored on the filter of segment `i`: the one after it, and `AND` on the last. */
  function LogicAt(segs: seq<Segment>, i: nat): string
    requires i < |segs|
  {
    if i < |segs| - 1 then segs[i].nextOperator else "AND"
  }

  /** The filter of segment `i`, when its condition reads as one by `parse`. */
  function FilterAt(parse: string -> Option<Filter>, segs: seq<Segment>, i: nat): seq<Filter>
    requires i < |segs|
  {
    match parse(segs[i].condition)
    case None => []
    case Some(f) => [f.(logic := LogicAt(segs, i))]
  }

  /** The filters of the first `n` segments; the parser reads them with `ParseCondition`. */
  function FiltersOf(parse: string -> Option<Filter>, segs: seq<Segment>, n: nat): seq<Filter>
    requires n <= |segs|
  {
    if n == 0 then [] else FiltersOf(parse, segs, n - 1) + FilterAt(parse, segs, n - 1)
  }

  /** The filters of a WHERE text. */
  function WhereFilters(whereText: string): seq<Filter> {
    var segs := SplitByLogicalOperators(whereText);
    FiltersOf(ParseCondition, segs, |segs|)
  }

  /** `parseWhereClause`: the conditions that parse are appended to the filters, each with its connective. */
  method ParseWhereClause(whereText: string, query: Query) returns (q: Query)
    ensures q == query.(filters := query.filters + WhereFilters(whereText))
  {
    var conditions := SplitByLogicalOperators(whereText);
    var filters := PushFilters(ParseCondition, conditions, query.filters);
    q := query.(filters := filters);
  }

  /** The WHERE loop for any condition reader: each condition that reads is pushed with its connective. */
  method PushFilters(parse: string -> Option<Filter>, conditions: seq<Segment>, base: seq<Filter>) returns (filters: seq<Filter>)
    ensures filters == base + FiltersOf(parse, conditions, |conditions|)
  {
    filters := base;
    var i := 0;
    while i < |conditions|
      invariant i <= |conditions|
      invariant filters == base + FiltersOf(parse, conditions, i)
    {
      var filter := parse(conditions[i].condition);
      ghost var before := filters;
      if filter.Some? {
        var logic := if i < |conditions| - 1 then conditions[i].nextOperator else "AND";
        filters := filters + [filter.value.(logic := logic)];
      }
      FiltersPush(parse, conditions, i, filter, base, before, filters);
      i := i + 1;
    }
  }

  /** One round of the WHERE loop: the filter of segment `i`, when present, is pushed with its connective. */
  lemma FiltersPush(parse: string -> Option<Filter>, segs: seq<Segment>, i: nat, y: Option<Filter>,
                    base: seq<Filter>, before: seq<Filter>, after: seq<Filter>)
    requires i < |segs| && y == parse(segs[i].condition)
    requires before == base + FiltersOf(parse, segs, i)
    requires after == before + (if y.Some? then [y.value.(logic := LogicAt(segs, i))] else [])
    ensures after == base + FiltersOf(parse, segs, i + 1)
  {
  }

  /** What every filter the parser builds looks like, before its connective is set. */
  predicate ReadFilter(f: Filter) {
    f.field != [] && Trim(f.field) == f.field && f.op in ConditionOpNames && Trim(f.value) == f.value
  }

  /** At most one filter per segment; each is a read condition whose logic is one of the connectives. */
  lemma {:induction false} FiltersOfShape(parse: string -> Option<Filter>, segs: seq<Segment>, n: nat)
    requires n <= |segs|
    requires forall s :: parse(s).Some? ==> ReadFilter(parse(s).value)
    requires forall i :: 0 <= i < |segs| ==> segs[i].nextOperator == "AND" || segs[i].nextOperator == "OR"
    ensures |FiltersOf(parse, segs, n)| <= n
    ensures forall f :: f in FiltersOf(parse, segs, n) ==> ReadFilter(f) && (f.logic == "AND" || f.logic == "OR")
    decreases n
  {
    if n > 0 {
      FiltersOfShape(parse, segs, n - 1);
    }
  }

  /** Every condition `parseCondition` reads has the shape of `ReadFilter`. */
  lemma ParsedConditionsRead()
    ensures forall s :: ParseCondition(s).Some? ==> ReadFilter(ParseCondition(s).value)
  {
    forall s | ParseCondition(s).Some?
      ensures ReadFilter(ParseCondition(s).value)
    {
      ParseConditionShape(s);
    }
  }

  /**
   * At most one filter per condition; every filter has a non-blank trimmed
   * field, a known operator, a trimmed value and `AND` or `OR` as its logic.
   */
  lemma WhereFiltersShape(whereText: string)
    ensures |WhereFilters(whereText)| <= |SplitByLogicalOperators(whereText)|
    ensures forall f :: f in WhereFilters(whereText) ==> ReadFilter(f) && (f.logic == "AND" || f.logic == "OR")
  {
    var segs := SplitByLogicalOperators(whereText);
    SplitShape(whereText);
    ParsedConditionsRead();
    FiltersOfShape(ParseCondition, segs, |segs|);
  }

  /** When every condition reads, filter `k` is condition `k` with the connective written after it. */
  lemma {:induction false} FiltersOfAllParse(parse: string -> Option<Filter>, segs: seq<Segment>, n: nat)
    requires n <= |segs| && 0 < |segs| && segs[|segs| - 1].nextOperator == "AND"
    requires forall i :: 0 <= i < |segs| ==> parse(segs[i].condition).Some?
    ensures |FiltersOf(parse, segs, n)| == n
    ensures forall k :: 0 <= k < n ==> FiltersOf(parse, segs, n)[k] == parse(segs[k].condition).value.(logic := segs[k].nextOperator)
    decreases n
  {
    if n > 0 {
      FiltersOfAllParse(parse, segs, n - 1);
    }
  }

  /**
   * Conditions without blanks written with single blanks around `AND`/`OR`
   * read back as one filter per condition, each carrying the connective
   * written after it and the last carrying `AND`.
   */
  lemma WhereRoundTrip(segs: seq<Segment>)
    requires PlainSegments(segs)
    requires forall i :: 0 <= i < |segs| ==> ParseCondition(segs[i].condition).Some?
    ensures |WhereFilters(JoinSegments(segs))| == |segs|
    ensures forall k :: 0 <= k < |segs| ==>
      WhereFilters(JoinSegments(segs))[k] == ParseCondition(segs[k].condition).value.(logic := segs[k].nextOperator)
  {
    SplitJoinedSegments(segs);
    FiltersOfAllParse(ParseCondition, segs, |segs|);
  }

  // ---------------------------------------------------------------------
  // GROUP BY

  /** `parseGroupByClause`: the comma pieces, trimmed again; the pieces already are, so they are kept as split. */
  function GroupByList(groupByText: string): (r: seq<string>)
    ensures r == SplitTopLevelCommas(groupByText)
  {
    var pieces := SplitTopLevelCommas(groupByText);
    SplitPiecesAreTrimmed(groupByText);
    seq(|pieces|, k requires 0 <= k < |pieces| => Trim(pieces[k]))
  }

  /** `parseGroupByClause`: the query's GROUP BY list is replaced by the trimmed comma pieces. */
  method ParseGroupByClause(groupByText: string, query: Query) returns (q: Query)
    ensures q == query.(groupBy := SplitTopLevelCommas(groupByText))
  {
    var fields := SplitByCommaRespectingParentheses(groupByText);
    q := query.(groupBy := seq(|fields|, k requires 0 <= k < |fields| => Trim(fields[k])));
    assert q.groupBy == GroupByList(groupByText);
  }

  // ---------------------------------------------------------------------
  // ORDER BY

  /** `\s+(ASC|DESC)$` at `e` of `t`, the word in any case: the direction, upper-cased. */
  function DirTail(t: string, e: nat): (r: Option<string>)
    requires e <= |t|
    ensures r.Some? ==> r.value == "ASC" || r.value == "DESC"
  {
    var d := e + WsRun(t, e);
    if d == e then None
    else if d + 3 == |t| && KeywordAt(t, d, "ASC") then Some("ASC")
    else if d + 4 == |t| && KeywordAt(t, d, "DESC") then Some("DESC")
    else None
  }

  /** `DirTail` as a table for the lazy head. */
  function DirTails(t: string): nat -> Option<string> {
    (e: nat) => if e <= |t| then DirTail(t, e) else None
  }

  /**
   * How `parseOrderByClause` reads one piece: `^(.+?)\s+(ASC|DESC)$` (flag
   * `i`) on the trimmed piece gives the trimmed head and the upper-cased
   * direction; a piece that does not match is the field, in ascending order.
   */
  function OrderItemOf(piece: string): (r: OrderItem)
    ensures r.dir == "ASC" || r.dir == "DESC"
  {
    var t := Trim(piece);
    OrderItemDir(t);
    OrderItemIn(t, DirTails(t))
  }

  /** The lazy match on the trimmed text `t`, for any tail table. */
  function OrderItemIn(t: string, tails: nat -> Option<string>): OrderItem {
    if t == [] then OrderItem(t, "ASC")
    else
      match LazyFrom(t, tails, 1)
      case None => OrderItem(t, "ASC")
      case Some(m) => OrderItem(Trim(t[..m.headEnd]), m.hit)
  }

  /** Either the pattern did not match, or it matched with a head of length `e` and the tail's direction. */
  lemma OrderItemInCases(t: string, tails: nat -> Option<string>) returns (e: nat)
    ensures var r := OrderItemIn(t, tails);
      r == OrderItem(t, "ASC") || (1 <= e <= |t| && tails(e) == Some(r.dir) && r.field == Trim(t[..e]))
  {
    e := 0;
    if t != [] && LazyFrom(t, tails, 1).Some? {
      LazyFromHit(t, tails, 1);
      e := LazyFrom(t, tails, 1).value.headEnd;
    }
  }

  /** The direction read is `ASC` or `DESC`. */
  lemma OrderItemDir(t: string)
    ensures OrderItemIn(t, DirTails(t)).dir == "ASC" || OrderItemIn(t, DirTails(t)).dir == "DESC"
  {
    var e := OrderItemInCases(t, DirTails(t));
  }

  /** The order items of an ORDER BY text: one per comma piece, in order. */
  function OrderItems(orderByText: string): seq<OrderItem> {
    Map(OrderItemOf, SplitTopLevelCommas(orderByText))
  }

  /** `parseOrderByClause`: one order item per comma piece is appended to the query's order. */
  method ParseOrderByClause(orderByText: string, query: Query) returns (q: Query)
    ensures q == query.(orderBy := query.orderBy + OrderItems(orderByText))
  {
    var pieces := SplitByCommaRespectingParentheses(orderByText);
    var orderBy := PushEach(OrderItemOf, pieces, query.orderBy);
    q := query.(orderBy := orderBy);
  }

  /** Every piece gives one order item, in order. */
  lemma OrderItemsEach(orderByText: string)
    ensures var pieces := SplitTopLevelCommas(orderByText);
      |OrderItems(orderByText)| == |pieces|
      && forall k :: 0 <= k < |pieces| ==> OrderItems(orderByText)[k] == OrderItemOf(pieces[k])
  {
    MapEach(OrderItemOf, SplitTopLevelCommas(orderByText));
  }

  /** A direction word: `ASC` or `DESC` in any letter case. */
  predicate DirWord(d: string) {
    Upper(d) == "ASC" || Upper(d) == "DESC"
  }

  /**
   * A field written on one line, a blank and a direction word in any case
   * read back as that field and the upper-cased direction.
   */
  lemma OrderRoundTrip(f: string, d: string)
    requires f != [] && NoLineTerminator(f) && !IsSpace(f[0]) && !IsSpace(f[|f| - 1])
    requires DirWord(d)
    ensures OrderItemOf(f + " " + d) == OrderItem(f, Upper(d))
  {
    var t := f + " " + d;
    DirLayout(t, f, d);
    TrimOfTrimmed(t);
    DirAtField(t, |f|, d);
    assert DirTails(t)(|f|) == Some(Upper(d));
    NoDirInField(t, |f|);
    OrderInExact(t, DirTails(t), |f|, Upper(d));
    TrimOfTrimmed(f);
  }

  /** Where the field, the blank and the direction word sit in `f + " " + d`. */
  lemma DirLayout(t: string, f: string, d: string)
    requires t == f + " " + d && f != [] && DirWord(d)
    ensures |t| == |f| + 1 + |d| && (|d| == 3 || |d| == 4)
    ensures t[..|f|] == f && t[|f|] == ' ' && t[|f| + 1..] == d
    ensures forall k :: 0 <= k < |f| ==> t[k] == f[k]
    ensures !IsSpace(t[|f| + 1]) && !IsSpace(t[|t| - 1])
  {
    UpperChars(d);
    assert t[|t| - 1] == d[|d| - 1];
    assert t[|f| + 1] == d[0];
  }

  /** A head of length `n` without line terminators, after which the tail matches and after no shorter one. */
  lemma OrderInExact(t: string, tails: nat -> Option<string>, n: nat, dir: string)
    requires 1 <= n <= |t| && tails(n) == Some(dir)
    requires forall k :: 0 <= k < n ==> !IsLineTerminator(t[k])
    requires forall k :: 1 <= k < n ==> tails(k).None?
    ensures OrderItemIn(t, tails) == OrderItem(Trim(t[..n]), dir)
  {
    LazyFromExact(t, tails, 1, n);
  }

  /** Right after the field, the tail matches and reads the direction word, upper-cased. */
  lemma DirAtField(t: string, n: nat, d: string)
    requires DirWord(d) && |t| == n + 1 + |d| && (|d| == 3 || |d| == 4)
    requires t[n] == ' ' && t[n + 1..] == d && !IsSpace(t[n + 1])
    ensures DirTail(t, n) == Some(Upper(d))
  {
    if |d| == 3 {
      AscAfter(t, n, d);
    } else {
      DescAfter(t, n, d);
    }
  }

  /** A blank and a three-letter direction word after the field read as `ASC`. */
  lemma AscAfter(t: string, n: nat, d: string)
    requires DirWord(d) && |t| == n + 4 && |d| == 3
    requires t[n] == ' ' && t[n + 1..] == d && !IsSpace(t[n + 1])
    ensures DirTail(t, n) == Some(Upper(d))
  {
    WsRunOne(t, n);
    AscAt(t, n + 1, d);
    AscTailIs(t, n);
  }

  /** One blank, then `ASC` ending the text. */
  lemma AscTailIs(t: string, n: nat)
    requires |t| == n + 4 && WsRun(t, n) == 1 && KeywordAt(t, n + 1, "ASC")
    ensures DirTail(t, n) == Some("ASC")
  {
  }

  /** A blank and a four-letter direction word after the field read as `DESC`. */
  lemma DescAfter(t: string, n: nat, d: string)
    requires DirWord(d) && |t| == n + 5 && |d| == 4
    requires t[n] == ' ' && t[n + 1..] == d && !IsSpace(t[n + 1])
    ensures DirTail(t, n) == Some(Upper(d))
  {
    WsRunOne(t, n);
    DescAt(t, n + 1, d);
    DescTailIs(t, n);
  }

  /** One blank, then `DESC` ending the text. */
  lemma DescTailIs(t: string, n: nat)
    requires |t| == n + 5 && WsRun(t, n) == 1 && KeywordAt(t, n + 1, "DESC")
    ensures DirTail(t, n) == Some("DESC")
  {
  }

  /** `ASC` in any case at the end of the text. */
  lemma AscAt(t: string, p: nat, d: string)
    requires p + 3 == |t| && t[p..] == d && DirWord(d)
    ensures KeywordAt(t, p, "ASC") && Upper(d) == "ASC"
  {
    assert t[p..p + 3] == d;
    KeywordAtUpper(t, p, "ASC");
  }

  /** `DESC` in any case at the end of the text. */
  lemma DescAt(t: string, p: nat, d: string)
    requires p + 4 == |t| && t[p..] == d && DirWord(d)
    ensures KeywordAt(t, p, "DESC") && Upper(d) == "DESC"
  {
    assert t[p..p + 4] == d;
    KeywordAtUpper(t, p, "DESC");
  }

  /**
   * The tail cannot match inside a field that ends at `n` with a non-blank
   * when the direction word starts after `n`: its blanks would have to
   * cover the field's last character.
   */
  lemma NoDirInField(t: string, n: nat)
    requires 0 < n && n + 4 <= |t| && !IsSpace(t[n - 1])
    ensures forall k :: 1 <= k < n ==> DirTails(t)(k).None?
  {
    forall k | 1 <= k < n
      ensures DirTails(t)(k).None?
    {
      WsRunSpaces(t, k);
    }
  }

  /** A piece without blanks inside has no direction: it is the field, in ascending order. */
  lemma OrderWithoutBlank(piece: string)
    requires NoSpace(Trim(piece))
    ensures OrderItemOf(piece) == OrderItem(Trim(piece), "ASC")
  {
    var t := Trim(piece);
    if t != [] {
      forall k | 1 <= k <= |t|
        ensures DirTails(t)(k).None?
      {
        assert WsRun(t, k) == 0;
      }
      LazyFromNone(t, DirTails(t), 1);
    }
  }

  /** A descending item comes from a piece that ends in a blank and `DESC` in any case. */
  lemma OrderDescWritten(piece: string)
    requires OrderItemOf(piece).dir == "DESC"
    ensures var t := Trim(piece); |t| >= 6 && IsSpace(t[|t| - 5]) && Upper(t[|t| - 4..]) == "DESC"
  {
    var t := Trim(piece);
    var e := OrderItemInCases(t, DirTails(t));
    DescTail(t, e);
  }

  /** Where the tail reads `DESC` at `e`: a blank, then `DESC` in any case, end the text. */
  lemma DescTail(t: string, e: nat)
    requires 1 <= e <= |t| && DirTail(t, e) == Some("DESC")
    ensures |t| >= 6 && IsSpace(t[|t| - 5]) && Upper(t[|t| - 4..]) == "DESC"
  {
    var d := e + WsRun(t, e);
    assert d + 4 == |t| && KeywordAt(t, d, "DESC");
    WsRunSpaces(t, e);
    assert IsSpace(t[d - 1]);
    assert t[d..d + 4] == t[|t| - 4..];
    KeywordAtUpper(t, d, "DESC");
  }

  // ---------------------------------------------------------------------
  // LIMIT

  /** The numbers `parseLimitClause` reads: the limit, and the offset when one is written. */
  datatype LimitValues = LimitValues(limit: nat, offset: Option<nat>)

  /** `LIMIT\s+(\d+)(?:\s+OFFSET\s+(\d+))?` searched again in the LIMIT text, its digits read as numbers. */
  function LimitValuesOf(limitText: string): (r: Option<LimitValues>)
    ensures r.Some? <==> FirstLimit(limitText).Some?
  {
    match FirstLimit(limitText)
    case None => None
    case Some(h) =>
      Some(LimitValues(DigitsValue(h.limit), if h.offset.Some? then Some(DigitsValue(h.offset.value)) else None))
  }

  /**
   * `parseLimitClause`: when the pattern matches, the limit is set, and the
   * offset too when `OFFSET` is written; otherwise the offset keeps the value
   * it had.
   */
  method ParseLimitClause(limitText: string, query: Query) returns (q: Query)
    ensures LimitValuesOf(limitText).None? ==> q == query
    ensures LimitValuesOf(limitText).Some? ==>
      var v := LimitValuesOf(limitText).value;
      q == query.(limit := Some(v.limit), offset := if v.offset.Some? then v.offset else query.offset)
  {
    var limitMatch := FirstLimit(limitText);
    q := query;
    if limitMatch.Some? {
      q := q.(limit := Some(DigitsValue(limitMatch.value.limit)));
      if limitMatch.value.offset.Some? {
        q := q.(offset := Some(DigitsValue(limitMatch.value.offset.value)));
      }
    }
  }

  /** A LIMIT clause as the generator writes it: `LIMIT n`, then ` OFFSET m` when there is an offset. */
  function LimitText(limit: nat, offset: Option<nat>): string {
    "LIMIT " + NatToString(limit) + (if offset.Some? then " OFFSET " + NatToString(offset.value) else "")
  }

  /** Reading a decimal numeral gives back its number. */
  lemma {:induction false} DigitsOfNat(n: nat)
    ensures DigitsValue(NatToString(n)) == n
    decreases n
  {
    if n >= 10 {
      DigitsOfNat(n / 10);
      var s := NatToString(n);
      assert s[..|s| - 1] == NatToString(n / 10);
    }
  }

  /** A written LIMIT clause reads back as its limit and offset. */
  lemma LimitRoundTrip(limit: nat, offset: Option<nat>)
    ensures LimitValuesOf(LimitText(limit, offset)) == Some(LimitValues(limit, offset))
  {
    var s := LimitText(limit, offset);
    var a := NatToString(limit);
    var tail := if offset.Some? then " OFFSET " + NatToString(offset.value) else "";
    LimitLayout(s, a, tail);
    var b := if offset.Some? then Some(NatToString(offset.value)) else None;
    LimitOfLaidOut(s, a, tail, b);
    DigitsOfNat(limit);
    if offset.Some? {
      DigitsOfNat(offset.value);
    }
  }

  /** Where `LIMIT`, the blank, the digits and the rest sit in a written LIMIT clause. */
  lemma LimitLayout(s: string, a: string, tail: string)
    requires s == "LIMIT " + a + tail
    ensures |s| == 6 + |a| + |tail| && s[..5] == "LIMIT" && s[5] == ' ' && s[6..6 + |a|] == a && s[6 + |a|..] == tail
  {
  }

  /** Where ` OFFSET ` and the digits sit in the offset part. */
  lemma OffsetLayout(tail: string, b: string)
    requires tail == " OFFSET " + b
    ensures |tail| == 8 + |b| && tail[0] == ' ' && tail[1..7] == "OFFSET" && tail[7] == ' ' && tail[8..] == b
  {
  }

  /** The LIMIT pattern on a laid-out clause: it matches at the start and reads both numerals. */
  lemma LimitOfLaidOut(s: string, a: string, tail: string, b: Option<string>)
    requires a != [] && AllDigits(a)
    requires |s| == 6 + |a| + |tail| && s[..5] == "LIMIT" && s[5] == ' ' && s[6..6 + |a|] == a && s[6 + |a|..] == tail
    requires b.None? ==> tail == []
    requires b.Some? ==> b.value != [] && AllDigits(b.value) && tail == " OFFSET " + b.value
    ensures FirstLimit(s) == Some(LimitHit(a, b, |s|))
  {
    LimitAtStart(s, a, tail, b);
    FirstFromAt(LimitTable(s), 0, |s|, 0);
  }

  /** The LIMIT pattern matches at the start of a laid-out clause. */
  lemma LimitAtStart(s: string, a: string, tail: string, b: Option<string>)
    requires a != [] && AllDigits(a)
    requires |s| == 6 + |a| + |tail| && s[..5] == "LIMIT" && s[5] == ' ' && s[6..6 + |a|] == a && s[6 + |a|..] == tail
    requires b.None? ==> tail == []
    requires b.Some? ==> b.value != [] && AllDigits(b.value) && tail == " OFFSET " + b.value
    ensures LimitAt(s, 0) == Some(LimitHit(a, b, |s|))
  {
    var n := 6 + |a|;
    WrittenKeyword(s, 0, "LIMIT");
    assert n == |s| || s[n] == ' ';
    LimitDigitsAt(s, a);
    OffsetOrNone(s, n, a, tail, b);
    LimitAtParts(s, a, b);
  }

  /** The LIMIT pattern at the start, from the keyword, the blank run, the digit run and the offset part. */
  lemma LimitAtParts(s: string, a: string, b: Option<string>)
    requires a != [] && 6 + |a| <= |s| && s[6..6 + |a|] == a
    requires KeywordAt(s, 0, "LIMIT") && WsRun(s, 5) == 1 && DigitRun(s, 6) == |a|
    requires OffsetPart(s, 6 + |a|, a) == LimitHit(a, b, |s|)
    ensures LimitAt(s, 0) == Some(LimitHit(a, b, |s|))
  {
  }

  /** After the limit digits comes either nothing or the laid-out offset part. */
  lemma OffsetOrNone(s: string, n: nat, a: string, tail: string, b: Option<string>)
    requires n + |tail| == |s| && s[n..] == tail
    requires b.None? ==> tail == []
    requires b.Some? ==> b.value != [] && AllDigits(b.value) && tail == " OFFSET " + b.value
    ensures OffsetPart(s, n, a) == LimitHit(a, b, |s|)
  {
    if b.Some? {
      OffsetOfLaidOut(s, n, a, b.value);
    } else {
      assert WsRun(s, n) == 0;
    }
  }


  /** `LIMIT`, one blank and the limit digits at the start of a laid-out clause. */
  lemma LimitDigitsAt(s: string, a: string)
    requires a != [] && AllDigits(a) && 6 + |a| <= |s|
    requires s[..5] == "LIMIT" && s[5] == ' ' && s[6..6 + |a|] == a
    requires 6 + |a| == |s| || s[6 + |a|] == ' '
    ensures WsRun(s, 5) == 1 && DigitRun(s, 6) == |a|
  {
    assert s[6] == a[0];
    WsRunOne(s, 5);
    assert forall k :: 6 <= k < 6 + |a| ==> s[k] == a[k - 6];
    DigitRunFrom(s, 6, 6 + |a|);
  }

  /** The offset part of a laid-out clause whose limit digits end at `n`. */
  lemma OffsetOfLaidOut(s: string, n: nat, a: string, b: string)
    requires b != [] && AllDigits(b) && n + 8 + |b| == |s| && s[n..] == " OFFSET " + b
    ensures OffsetPart(s, n, a) == LimitHit(a, Some(b), |s|)
  {
    var tail := s[n..];
    OffsetLayout(tail, b);
    assert s[n] == tail[0] && s[n + 7] == tail[7] && s[n + 8] == tail[8];
    assert s[n + 1..n + 7] == tail[1..7];
    assert s[n + 8..] == tail[8..] == b;
    assert forall k :: n + 8 <= k < |s| ==> s[k] == b[k - n - 8];
    WsRunOne(s, n);
    WrittenKeyword(s, n + 1, "OFFSET");
    WsRunOne(s, n + 7);
    DigitRunFrom(s, n + 8, |s|);
    OffsetParts(s, n, a, b);
  }

  /** The offset part from the blank runs, the keyword and the digit run. */
  lemma OffsetParts(s: string, n: nat, a: string, b: string)
    requires b != [] && n + 8 + |b| == |s| && s[n + 8..] == b
    requires WsRun(s, n) == 1 && KeywordAt(s, n + 1, "OFFSET") && WsRun(s, n + 7) == 1 && DigitRun(s, n + 8) == |b|
    ensures OffsetPart(s, n, a) == LimitHit(a, Some(b), |s|)
  {
    assert s[n + 8..|s|] == b;
  }

}
