/**
 * The two value-level helpers of the SQL generator: `quoteIdentifier`, which
 * keeps only the characters an identifier may carry, and `literal`, which
 * passes SQL-looking values through and quotes everything else.
 */
module SqlText {
  import opened Wrappers
  import opened Text

  /** The characters `quoteIdentifier` keeps: `[a-zA-Z0-9_.]`. */
  predicate IdentChar(c: char) {
    IsWordChar(c) || c == '.'
  }

  predicate AllIdentChars(s: string) {
    forall k :: 0 <= k < |s| ==> IdentChar(s[k])
  }

  /** `quoteIdentifier(id)`: `id` with every character outside `[a-zA-Z0-9_.]` removed. */
  function QuoteIdentifier(id: string): (r: string)
    ensures |r| <= |id|
    decreases |id|
  {
    if id == [] then []
    else (if IdentChar(id[0]) then [id[0]] else []) + QuoteIdentifier(id[1..])
  }

  /** `quoteIdentifier` of a possibly null value: `String(id || '')` turns null into the empty string. */
  function QuoteOpt(id: Option<string>): string
  {
    if id.Some? then QuoteIdentifier(id.value) else []
  }

  /** Every character of the result is an identifier character. */
  lemma {:induction false} QuoteIdentifierChars(id: string)
    ensures AllIdentChars(QuoteIdentifier(id))
    decreases |id|
  {
    if id != [] {
      QuoteIdentifierChars(id[1..]);
    }
  }

  /** The identifier is left as it is exactly when it holds identifier characters only. */
  lemma {:induction false} QuoteIdentifierKeeps(id: string)
    ensures QuoteIdentifier(id) == id <==> AllIdentChars(id)
    decreases |id|
  {
    QuoteIdentifierChars(id);
    if id != [] {
      QuoteIdentifierKeeps(id[1..]);
      if AllIdentChars(id) {
        assert AllIdentChars(id[1..]) by {
          forall k | 0 <= k < |id| - 1 ensures IdentChar(id[1..][k]) {
            assert id[1..][k] == id[k + 1];
          }
        }
      }
    }
  }

  /** Quoting twice is quoting once. */
  lemma QuoteIdentifierIdempotent(id: string)
    ensures QuoteIdentifier(QuoteIdentifier(id)) == QuoteIdentifier(id)
  {
    QuoteIdentifierChars(id);
    QuoteIdentifierKeeps(QuoteIdentifier(id));
  }

  /** The character filter works piece by piece: quoting a concatenation concatenates the quoted pieces. */
  lemma {:induction false} QuoteIdentifierAppend(a: string, b: string)
    ensures QuoteIdentifier(a + b) == QuoteIdentifier(a) + QuoteIdentifier(b)
    decreases |a|
  {
    if a != [] {
      assert (a + b)[1..] == a[1..] + b;
      QuoteIdentifierAppend(a[1..], b);
    } else {
      assert a + b == b;
    }
  }

  /** Each identifier character occurs as often in the result as in the input, and no other character occurs. */
  lemma {:induction false} QuoteIdentifierCounts(id: string, c: char)
    ensures IdentChar(c) ==> multiset(QuoteIdentifier(id))[c] == multiset(id)[c]
    ensures !IdentChar(c) ==> multiset(QuoteIdentifier(id))[c] == 0
    decreases |id|
  {
    if id != [] {
      QuoteIdentifierCounts(id[1..], c);
      assert id == [id[0]] + id[1..];
    }
  }

  /** `/^<open>.*<close>$/`: at least two characters, the given first and last, and no line terminator between. */
  predicate Enclosed(t: string, open: char, close: char) {
    |t| >= 2 && t[0] == open && t[|t| - 1] == close && NoLineTerminator(t[1..|t| - 1])
  }

  /** `/^\d+(\.\d+)?$/`: digits, optionally followed by a point and more digits. */
  predicate Numeral(t: string) {
    var n := DigitRun(t, 0);
    n > 0 && (n == |t| || (t[n] == '.' && DigitRun(t, n + 1) > 0 && n + 1 + DigitRun(t, n + 1) == |t|))
  }

  /** The trimmed values `literal` passes through unchanged: a parenthesised list, a number or a quoted string. */
  predicate SqlLooking(t: string) {
    Enclosed(t, '(', ')') || Numeral(t) || Enclosed(t, '\'', '\'') || Enclosed(t, '"', '"')
  }

  /** `replace(/'/g, "''")`: every single quote doubled. */
  function DoubleQuotes(t: string): (r: string)
    ensures |r| >= |t|
    decreases |t|
  {
    if t == [] then []
    else (if t[0] == '\'' then "''" else [t[0]]) + DoubleQuotes(t[1..])
  }

  /** How SQL reads the inside of a quoted string: a doubled quote stands for one quote. */
  function UndoubleQuotes(s: string): string
    decreases |s|
  {
    if s == [] then []
    else if |s| >= 2 && s[0] == '\'' && s[1] == '\'' then "'" + UndoubleQuotes(s[2..])
    else [s[0]] + UndoubleQuotes(s[1..])
  }

  /** SQL reads back exactly the text that was quoted. */
  lemma {:induction false} UndoubleDoubleQuotes(t: string)
    ensures UndoubleQuotes(DoubleQuotes(t)) == t
    decreases |t|
  {
    if t != [] {
      UndoubleDoubleQuotes(t[1..]);
      var rest := DoubleQuotes(t[1..]);
      if t[0] == '\'' {
        assert ("''" + rest)[2..] == rest;
      } else {
        assert ([t[0]] + rest)[1..] == rest;
      }
    }
  }

  /** Doubling quotes adds no line terminator. */
  lemma {:induction false} DoubleQuotesLines(t: string)
    requires NoLineTerminator(t)
    ensures NoLineTerminator(DoubleQuotes(t))
    decreases |t|
  {
    if t != [] {
      DoubleQuotesLines(t[1..]);
    }
  }

  /**
   * `literal(value)`: `NULL` for a null value; otherwise the trimmed text,
   * left as it is when it already reads as SQL, and put in single quotes with
   * its own single quotes doubled when it does not.
   */
  function Literal(value: Option<string>): (r: string)
    ensures r != []
  {
    if value.None? then "NULL"
    else
      var t := Trim(value.value);
      if SqlLooking(t) then t else "'" + DoubleQuotes(t) + "'"
  }

  /**
   * What `literal` returns for a value: either the trimmed value itself, which
   * reads as SQL, or a quoted string from which SQL reads back the trimmed value.
   */
  lemma LiteralMeaning(v: string)
    ensures var t := Trim(v); var r := Literal(Some(v));
      (SqlLooking(t) && r == t)
      || (!SqlLooking(t) && |r| >= 2 && r[0] == '\'' && r[|r| - 1] == '\''
          && UndoubleQuotes(r[1..|r| - 1]) == t)
  {
    var t := Trim(v);
    if !SqlLooking(t) {
      var r := Literal(Some(v));
      assert r[1..|r| - 1] == DoubleQuotes(t);
      UndoubleDoubleQuotes(t);
    }
  }

  /**
   * For a value on one line, the output of `literal` reads as SQL and is
   * passed through by a second `literal` unchanged.
   */
  lemma LiteralIdempotent(v: string)
    requires NoLineTerminator(v)
    ensures SqlLooking(Literal(Some(v)))
    ensures Literal(Some(Literal(Some(v)))) == Literal(Some(v))
  {
    var t := Trim(v);
    var a := TrimSlice(v);
    NoLineTerminatorSlice(v, a, a + |t|);
    TrimIdempotent(v);
    if !SqlLooking(t) {
      var r := "'" + DoubleQuotes(t) + "'";
      DoubleQuotesLines(t);
      assert r[1..|r| - 1] == DoubleQuotes(t);
      assert Enclosed(r, '\'', '\'');
      TrimOfTrimmed(r);
    }
  }
}
