/**
 * The generator and the parser side by side: what the generator writes for a
 * select-list field, a WHERE filter, an ORDER BY entry, the LIMIT and OFFSET
 * lines and a JOIN is read back by the parser's own readers as the same
 * entity, and writing that reading out again gives the same text.
 */
module GenRoundTrip {
  import opened Wrappers
  import opened Text
  import opened Lists
  import opened QueryModel
  import opened SqlText
  import opened SqlGen
  import FieldParse
  import Conditions
  import ConditionText
  import JoinParse
  import ClauseParse

  /** Word characters are identifier characters, so sanitising leaves a word as it is. */
  lemma WordIsIdentifier(s: string)
    requires AllWordChars(s)
    ensures QuoteIdentifier(s) == s
  {
    QuoteIdentifierKeeps(s);
  }

  /** Identifier characters are neither blanks nor line terminators. */
  lemma IdentifierIsPlain(s: string)
    requires AllIdentChars(s)
    ensures NoSpace(s) && NoLineTerminator(s)
  {
  }

  /** `table.column` written without an aggregate or an alias is read back as that table and column. */
  lemma PlainFieldRoundTrip(f: Field)
    requires f.table.Some? && f.table.value != [] && AllWordChars(f.table.value)
    requires f.name != [] && AllWordChars(f.name)
    requires f.agg == [] && f.alias == []
    requires f.expression == [] || f.expression == f.table.value + "." + f.name
    ensures FieldParse.ParseField(FieldText(f)) == f.(expression := f.table.value + "." + f.name)
  {
    assert FieldText(f) == f.table.value + "." + f.name;
    FieldParse.QualifiedField(f.table.value, f.name);
  }

  /** `table.column AS alias` is read back as that table and column with that alias. */
  lemma AliasedFieldRoundTrip(f: Field)
    requires f.table.Some? && f.table.value != [] && AllWordChars(f.table.value)
    requires f.name != [] && AllWordChars(f.name)
    requires f.agg == [] && f.alias != [] && AllWordChars(f.alias)
    requires f.expression == [] || f.expression == f.table.value + "." + f.name
    ensures FieldParse.ParseField(FieldText(f)) == f.(expression := f.table.value + "." + f.name)
  {
    var x := f.table.value + "." + f.name;
    WordIsIdentifier(f.alias);
    assert FieldText(f) == x + " AS " + f.alias;
    QuotedQualified(f.table.value, f.name);
    FieldParse.AliasedField(x, f.alias);
    FieldParse.QualifiedField(f.table.value, f.name);
  }

  /** `table.column` of words is made of identifier characters and has no parenthesis. */
  lemma QuotedQualified(t: string, c: string)
    requires AllWordChars(t) && AllWordChars(c)
    ensures AllIdentChars(t + "." + c) && '(' !in t + "." + c
    ensures QuoteIdentifier(t + "." + c) == t + "." + c
  {
    var s := t + "." + c;
    QualifiedIdentChars(t, c);
    QuoteIdentifierKeeps(s);
    assert '(' !in s by {
      forall k | 0 <= k < |s|
        ensures s[k] != '('
      {
        assert IdentChar(s[k]);
      }
    }
  }

  lemma QualifiedIdentChars(t: string, c: string)
    requires AllWordChars(t) && AllWordChars(c)
    ensures AllIdentChars(t + "." + c)
  {
    assert AllIdentChars(t) && AllIdentChars(".") && AllIdentChars(c);
    IdentAppend(t, ".");
    IdentAppend(t + ".", c);
  }

  /** Two texts of identifier characters make one. */
  lemma IdentAppend(a: string, b: string)
    requires AllIdentChars(a) && AllIdentChars(b)
    ensures AllIdentChars(a + b)
  {
    forall k | 0 <= k < |a + b|
      ensures IdentChar((a + b)[k])
    {
      if k >= |a| {
        assert (a + b)[k] == b[k - |a|];
      }
    }
  }

  /**
   * A plain field with an aggregate is written as `AGG(table.column)` and is
   * read back as that table, column and aggregate.
   */
  lemma AggregateFieldRoundTrip(f: Field)
    requires f.table.Some? && f.table.value != [] && AllWordChars(f.table.value)
    requires f.name != [] && AllWordChars(f.name)
    requires f.agg in FieldParse.AggNames && f.alias == []
    requires f.expression == [] || f.expression == f.table.value + "." + f.name
    ensures FieldParse.ParseField(FieldText(f)) == f.(expression := f.table.value + "." + f.name)
  {
    var t := f.table.value;
    var x := t + "." + f.name;
    AggregateFieldText(f);
    QualifiedIsPlain(t, f.name);
    FieldParse.AggCallField(f.agg, x);
    QualifiedArgument(t, f.name, f.agg);
  }

  /** `table.column` is a non-empty, trimmed text on one line that does not end with a parenthesis. */
  lemma QualifiedIsPlain(t: string, c: string)
    requires c != [] && AllWordChars(t) && AllWordChars(c)
    ensures var x := t + "." + c;
      x != [] && NoLineTerminator(x) && Trim(x) == x && x[|x| - 1] != ')'
  {
    var x := t + "." + c;
    QuotedQualified(t, c);
    IdentifierIsPlain(x);
    assert x[|x| - 1] == c[|c| - 1];
    TrimOfTrimmed(x);
  }

  /** The argument `table.column` of an aggregate call names that table and column. */
  lemma QualifiedArgument(t: string, c: string, a: string)
    requires t != [] && AllWordChars(t) && c != [] && AllWordChars(c)
    ensures FieldParse.ArgField(t + "." + c, a, "") == Field(Some(t), c, "", a, t + "." + c)
  {
    FieldParse.QualifiedMatch(t, c);
    assert t + "." + c != "*" by {
      assert |t + "." + c| >= 3;
    }
  }

  /** A plain field with an aggregate is written as `AGG(table.column)`. */
  lemma AggregateFieldText(f: Field)
    requires f.table.Some? && AllWordChars(f.table.value) && AllWordChars(f.name)
    requires f.agg in FieldParse.AggNames && f.alias == []
    requires f.expression == [] || f.expression == f.table.value + "." + f.name
    ensures FieldText(f) == f.agg + "(" + (f.table.value + "." + f.name) + ")"
  {
    var t := f.table.value;
    var x := t + "." + f.name;
    QuotedQualified(t, f.name);
    WordIsIdentifier(t);
    WordIsIdentifier(f.name);
    FieldParse.AggNeedsParen(x);
    assert DefaultExpr(f) == x && ExprOf(f) == x;
    assert FieldText(f) == WrapAggregate(f, x, true);
    assert WrapAggregate(f, x, true) == f.agg + "(" + t + "." + f.name + ")";
    Associative(f.agg + "(", t + ".", f.name);
    Associative(f.agg + "(", t, ".");
  }

  /** Concatenation is associative. */
  lemma Associative(a: string, b: string, c: string)
    ensures a + (b + c) == a + b + c
  {
  }

  /** What `literal` writes is never blank at either end and stays on one line. */
  lemma LiteralIsPlain(v: string)
    requires NoLineTerminator(v)
    ensures var r := Literal(Some(v));
      r != [] && !IsSpace(r[0]) && !IsSpace(r[|r| - 1]) && NoLineTerminator(r)
  {
    LiteralIdempotent(v);
    SqlLookingPlain(Literal(Some(v)));
  }

  /** A text that reads as SQL is never blank at either end and stays on one line. */
  lemma SqlLookingPlain(t: string)
    requires SqlLooking(t)
    ensures t != [] && !IsSpace(t[0]) && !IsSpace(t[|t| - 1]) && NoLineTerminator(t)
  {
    if Numeral(t) {
      NumeralPlain(t);
    } else if Enclosed(t, '(', ')') {
      EnclosedPlain(t, '(', ')');
    } else if Enclosed(t, '\'', '\'') {
      EnclosedPlain(t, '\'', '\'');
    } else {
      EnclosedPlain(t, '"', '"');
    }
  }

  lemma NumeralPlain(t: string)
    requires Numeral(t)
    ensures t != [] && !IsSpace(t[0]) && !IsSpace(t[|t| - 1]) && NoLineTerminator(t)
  {
    DigitRunDigits(t, 0);
    var n := DigitRun(t, 0);
    if n < |t| {
      DigitRunDigits(t, n + 1);
    }
    assert forall k :: 0 <= k < |t| ==> IsDigit(t[k]) || t[k] == '.';
  }

  lemma EnclosedPlain(t: string, open: char, close: char)
    requires Enclosed(t, open, close)
    requires !IsSpace(open) && !IsSpace(close) && !IsLineTerminator(open) && !IsLineTerminator(close)
    ensures t != [] && !IsSpace(t[0]) && !IsSpace(t[|t| - 1]) && NoLineTerminator(t)
  {
    forall k | 0 < k < |t| - 1
      ensures !IsLineTerminator(t[k])
    {
      assert t[k] == t[1..|t| - 1][k - 1];
    }
  }

  /**
   * A filter with a comparison, `LIKE` or `IN` operator is written as
   * `field OP value` and read back with the sanitised field, the upper-cased
   * operator and the value as `literal` wrote it.
   */
  lemma FilterRoundTrip(f: Filter)
    requires Emitted(f) && ConditionText.PlainField(QuoteIdentifier(f.field))
    requires Upper(f.op) in ConditionText.WrittenWords && Upper(f.op) != "BETWEEN"
    requires NoLineTerminator(f.value)
    ensures Conditions.ParseCondition(FilterText(f))
      == Some(Filter(QuoteIdentifier(f.field), Upper(f.op), Literal(Some(f.value)), "AND"))
  {
    var field := QuoteIdentifier(f.field);
    var w := Upper(f.op);
    WrittenFilterText(f);
    LiteralIsPlain(f.value);
    ConditionText.ParseWritten(field, w, Literal(Some(f.value)));
  }

  /** A filter with one of those operators is written as its field, its upper-cased operator and its literal value, blank-separated. */
  lemma WrittenFilterText(f: Filter)
    requires Upper(f.op) in ConditionText.WrittenWords && Upper(f.op) != "BETWEEN"
    ensures FilterText(f) == QuoteIdentifier(f.field) + " " + Upper(f.op) + " " + Literal(Some(f.value))
  {
    var w := Upper(f.op);
    if w == "IN" {
      InFilterText(f);
    } else if w == "LIKE" {
      LikeFilterText(f);
    } else {
      ComparisonFilterText(f);
    }
  }

  lemma InFilterText(f: Filter)
    requires Upper(f.op) == "IN"
    ensures FilterText(f) == QuoteIdentifier(f.field) + " " + Upper(f.op) + " " + Literal(Some(f.value))
  {
    var field := QuoteIdentifier(f.field);
    var lit := Literal(Some(f.value));
    assert FilterText(f) == field + " IN " + lit;
    SpelledIn(field, lit);
  }

  lemma LikeFilterText(f: Filter)
    requires Upper(f.op) == "LIKE"
    ensures FilterText(f) == QuoteIdentifier(f.field) + " " + Upper(f.op) + " " + Literal(Some(f.value))
  {
    var field := QuoteIdentifier(f.field);
    var lit := Literal(Some(f.value));
    assert FilterText(f) == field + " LIKE " + lit;
    SpelledLike(field, lit);
  }

  lemma SpelledIn(a: string, b: string)
    ensures a + " IN " + b == a + " " + "IN" + " " + b
  {
    assert " IN " == " " + "IN" + " ";
  }

  lemma SpelledLike(a: string, b: string)
    ensures a + " LIKE " + b == a + " " + "LIKE" + " " + b
  {
    assert " LIKE " == " " + "LIKE" + " ";
  }

  lemma ComparisonFilterText(f: Filter)
    requires Upper(f.op) in ["=", "!=", ">", "<"]
    ensures FilterText(f) == QuoteIdentifier(f.field) + " " + Upper(f.op) + " " + Literal(Some(f.value))
  {
  }

  /**
   * A `>=` or `<=` filter does not survive the round trip: it is written as
   * `field >= value`, and the parser, which tries `>` and `<` first, reads
   * the operator `>` (or `<`) and the value `= value`.
   */
  lemma ComparisonWithEqualsNotRoundTrip(f: Filter)
    requires Emitted(f) && ConditionText.PlainField(QuoteIdentifier(f.field))
    requires Upper(f.op) in [">=", "<="] && NoLineTerminator(f.value)
    ensures Conditions.ParseCondition(FilterText(f))
      == Some(Filter(QuoteIdentifier(f.field), [Upper(f.op)[0]], "= " + Literal(Some(f.value)), "AND"))
    ensures Conditions.ParseCondition(FilterText(f)).value.op != Upper(f.op)
  {
    var field := QuoteIdentifier(f.field);
    var lit := Literal(Some(f.value));
    assert FilterText(f) == field + " " + Upper(f.op) + " " + lit;
    LiteralIsPlain(f.value);
    ConditionText.ComparisonWithEqualsMisread(field, Upper(f.op), lit);
  }

  /** An `IS NULL` filter is written without a value and read back as the NULL test on the sanitised field, its value empty. */
  lemma IsNullRoundTrip(f: Filter)
    requires ConditionText.PlainField(QuoteIdentifier(f.field)) && Upper(f.op) == "IS NULL"
    ensures Conditions.ParseCondition(FilterText(f))
      == Some(Filter(QuoteIdentifier(f.field), "IS NULL", "", "AND"))
  {
    var field := QuoteIdentifier(f.field);
    assert FilterText(f) == field + " " + "IS NULL";
    assert field + " " + "IS NULL" == field + " IS NULL";
    ConditionText.IsNullReadBack(field);
  }

  /** Writing out what the parser read from a written filter gives the same text again. */
  lemma FilterTextStable(f: Filter)
    requires Emitted(f) && ConditionText.PlainField(QuoteIdentifier(f.field))
    requires Upper(f.op) in ConditionText.WrittenWords && Upper(f.op) != "BETWEEN"
    requires NoLineTerminator(f.value)
    ensures var g := Conditions.ParseCondition(FilterText(f));
      g.Some? && Emitted(g.value) && FilterText(g.value) == FilterText(f)
  {
    FilterRoundTrip(f);
    var w := Upper(f.op);
    var g := Filter(QuoteIdentifier(f.field), w, Literal(Some(f.value)), "AND");
    QuoteIdentifierIdempotent(f.field);
    LiteralIdempotent(f.value);
    UpperChars(f.op);
    UpperOfUpper(w);
    WrittenFilterText(g);
    WrittenFilterText(f);
  }

  /** An ORDER BY entry is read back with the sanitised field and the upper-cased direction, `ASC` by default. */
  lemma OrderRoundTrip(o: OrderItem)
    requires QuoteIdentifier(o.field) != []
    requires o.dir == [] || ClauseParse.DirWord(o.dir)
    ensures ClauseParse.OrderItemOf(OrderText(o))
      == OrderItem(QuoteIdentifier(o.field), Upper(if o.dir != [] then o.dir else "ASC"))
  {
    var f := QuoteIdentifier(o.field);
    QuoteIdentifierChars(o.field);
    IdentifierIsPlain(f);
    var d := if o.dir != [] then o.dir else "ASC";
    if o.dir == [] {
      UpperOfUpper("ASC");
    }
    ClauseParse.OrderRoundTrip(f, d);
  }

  /**
   * The LIMIT and OFFSET lines, once trimmed and with their whitespace
   * collapsed as the parser does to the whole text, read back as the same
   * limit and offset.
   */
  lemma LimitRoundTrip(limit: nat, offset: Option<nat>)
    ensures ClauseParse.LimitValuesOf(CollapseWs(Trim(LimitSection(Some(limit)) + OffsetSection(offset))))
      == Some(ClauseParse.LimitValues(limit, offset))
  {
    var n := NatToString(limit);
    var x := "LIMIT " + n + OffsetSection(offset);
    assert LimitSection(Some(limit)) + OffsetSection(offset) == "\n" + x;
    LimitTrimmed(x, n, offset);
    LimitCollapsed(n, offset);
    ClauseParse.LimitRoundTrip(limit, offset);
  }

  /** The lines after the leading line break neither start nor end with a blank. */
  lemma LimitTrimmed(x: string, n: string, offset: Option<nat>)
    requires n != [] && AllDigits(n) && x == "LIMIT " + n + OffsetSection(offset)
    ensures Trim("\n" + x) == x
  {
    assert ("\n" + x)[1..] == x;
    assert TrimLeft("\n" + x) == TrimLeft(x);
    if offset.Some? {
      var m := NatToString(offset.value);
      assert x[|x| - 1] == m[|m| - 1];
    } else {
      assert x[|x| - 1] == n[|n| - 1];
    }
    TrimOfTrimmed(x);
  }

  /** Collapsing the whitespace of the LIMIT and OFFSET lines gives the one-line LIMIT text. */
  lemma LimitCollapsed(n: string, offset: Option<nat>)
    requires n != [] && AllDigits(n)
    ensures CollapseWs("LIMIT " + n + OffsetSection(offset))
      == "LIMIT " + n + (if offset.Some? then " OFFSET " + NatToString(offset.value) else "")
  {
    var tail := OffsetSection(offset);
    var after := if offset.Some? then " OFFSET " + NatToString(offset.value) else "";
    DigitsPlain(n);
    LimitShape(n, tail);
    LimitShape(n, after);
    assert NoSpace("LIMIT");
    CollapseGap("LIMIT", " ", n + tail);
    CollapsePlainPrefix(n, tail);
    if offset.Some? {
      OffsetCollapsed(NatToString(offset.value));
    }
  }

  lemma LimitShape(n: string, rest: string)
    ensures "LIMIT " + n + rest == "LIMIT" + " " + (n + rest)
  {
  }

  /** The OFFSET line collapses to ` OFFSET m`. */
  lemma OffsetCollapsed(m: string)
    requires m != [] && AllDigits(m)
    ensures CollapseWs("\nOFFSET " + m) == " OFFSET " + m
  {
    DigitsPlain(m);
    OffsetShape(m);
    assert NoSpace("OFFSET");
    CollapseRun("\n", "OFFSET" + " " + m);
    CollapseGap("OFFSET", " ", m);
    CollapsePlain(m);
  }

  lemma OffsetShape(m: string)
    ensures "\nOFFSET " + m == "\n" + ("OFFSET" + " " + m)
    ensures [' '] + ("OFFSET" + " " + m) == " OFFSET " + m
  {
  }

  /** Digits are not blanks. */
  lemma DigitsPlain(n: string)
    requires AllDigits(n)
    ensures NoSpace(n)
  {
  }

  /** A comparison of identifiers written out by the generator, on one line. */
  predicate PlainComparison(c: JoinCond) {
    c.left != [] && AllIdentChars(c.left) && c.right != [] && AllIdentChars(c.right) && NoLineTerminator(c.op)
  }

  /** Comparisons of identifiers give one text each, and the joined text starts with an identifier character and stays on one line. */
  lemma OnConditionsPlain(on: seq<JoinCond>)
    requires on != [] && forall k :: 0 <= k < |on| ==> PlainComparison(on[k])
    ensures var t := Joined(FilterMap(CondPart, on), " AND ");
      t != [] && IdentChar(t[0]) && NoLineTerminator(t)
  {
    FilterMapAll(CondPart, on);
    var conds := FilterMap(CondPart, on);
    forall k | 0 <= k < |conds|
      ensures conds[k] != [] && NoLineTerminator(conds[k])
    {
      CondPartPlain(on[k]);
    }
    CondPartPlain(on[0]);
    AndIsPlain();
    JoinedPlain(conds, " AND ");
  }

  /** A comparison of identifiers is written as `left op right`, starting with its left side and on one line. */
  lemma CondPartPlain(c: JoinCond)
    requires PlainComparison(c)
    ensures var p := CondPart(c); p.Some? && p.value != [] && p.value[0] == c.left[0] && NoLineTerminator(p.value)
  {
    QuoteIdentifierKeeps(c.left);
    QuoteIdentifierKeeps(c.right);
    IdentifierIsPlain(c.left);
    IdentifierIsPlain(c.right);
    var op := if c.op != [] then c.op else "=";
    var p := c.left + " " + op + " " + c.right;
    assert CondPart(c).value == p;
    assert NoLineTerminator(" ") && NoLineTerminator("=");
    PlainAppend(c.left, " ");
    PlainAppend(c.left + " ", op);
    PlainAppend(c.left + " " + op, " ");
    PlainAppend(c.left + " " + op + " ", c.right);
  }

  /** Two texts on one line make one text on one line. */
  lemma PlainAppend(a: string, b: string)
    requires NoLineTerminator(a) && NoLineTerminator(b)
    ensures NoLineTerminator(a + b)
  {
    forall k | 0 <= k < |a + b|
      ensures !IsLineTerminator((a + b)[k])
    {
      if k >= |a| {
        assert (a + b)[k] == b[k - |a|];
      }
    }
  }

  lemma AndIsPlain()
    ensures NoLineTerminator(" AND ")
  {
    var s := " AND ";
    assert s == [' ', 'A', 'N', 'D', ' '];
  }

  /** Pieces on one line joined by a separator on one line stay on one line, and start with the first piece. */
  lemma {:induction false} JoinedPlain(xs: seq<string>, sep: string)
    requires xs != [] && NoLineTerminator(sep)
    requires forall k :: 0 <= k < |xs| ==> xs[k] != [] && NoLineTerminator(xs[k])
    ensures var t := Joined(xs, sep); t != [] && t[0] == xs[0][0] && NoLineTerminator(t)
    decreases |xs|
  {
    if |xs| > 1 {
      JoinedPlain(xs[1..], sep);
      var rest := Joined(xs[1..], sep);
      PlainAppend(xs[0], sep);
      PlainAppend(xs[0] + sep, rest);
    }
  }

  /**
   * A JOIN with a known type, a table named by a word and comparisons of
   * identifiers is read back with the same type and table; its comparisons
   * are read from the ` AND `-joined ON text.
   */
  lemma JoinRoundTrip(j: Join)
    requires j.kind in JoinParse.JoinKinds && j.rightTable != [] && AllWordChars(j.rightTable)
    requires j.on != [] && forall k :: 0 <= k < |j.on| ==> PlainComparison(j.on[k])
    ensures var on := Joined(FilterMap(CondPart, j.on), " AND ");
      JoinPart(j).Some?
      && JoinParse.ParseJoin(JoinPart(j).value)
         == Some(Join(j.kind, j.rightTable, JoinParse.JoinConds(Conditions.SplitByLogicalOperators(on))))
  {
    var on := Joined(FilterMap(CondPart, j.on), " AND ");
    JoinPartText(j);
    OnConditionsPlain(j.on);
    JoinParse.ParseWrittenJoin(j.kind, j.rightTable, on);
  }

  lemma JoinKindWritten(kind: string)
    requires kind in JoinParse.JoinKinds
    ensures kind != []
  {
  }

  /** A join with a type, a word for a table and complete comparisons is written as `type JOIN table ON a AND b ...`. */
  lemma JoinPartText(j: Join)
    requires j.kind in JoinParse.JoinKinds && AllWordChars(j.rightTable) && j.rightTable != []
    requires j.on != [] && forall k :: 0 <= k < |j.on| ==> PlainComparison(j.on[k])
    ensures JoinPart(j) == Some(j.kind + " JOIN " + j.rightTable + " ON " + Joined(FilterMap(CondPart, j.on), " AND "))
  {
    WordIsIdentifier(j.rightTable);
    CondPartPlain(j.on[0]);
    FilterMapAll(CondPart, j.on);
    var conds := FilterMap(CondPart, j.on);
    assert conds != [];
    assert OnText(j.on) == " ON " + Joined(conds, " AND ");
    JoinKindWritten(j.kind);
    assert JoinPart(j) == Some(j.kind + " JOIN " + j.rightTable + OnText(j.on));
    Associative(j.kind + " JOIN " + j.rightTable, " ON ", Joined(conds, " AND "));
  }
}
