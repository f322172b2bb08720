/**
 * One select-list entry read into a `Field` (`parseField`): an optional
 * trailing alias, an optional aggregate call around the argument, and a
 * `table.column` or bare column name.
 */
module FieldParse {
  import opened Wrappers
  import opened Text
  import opened QueryModel
  import opened Patterns

  /** `(\w+)$` from `b`: a non-empty run of word characters that reaches the end. */
  predicate WordTail(s: string, b: nat)
    requires b <= |s|
  {
    b < |s| && b + WordRun(s, b) == |s|
  }

  /** `AS\s+(\w+)$` at `a`: where the alias starts, when it matches. */
  function AsAlias(s: string, a: nat): (r: Option<nat>)
    requires a <= |s|
    ensures r.Some? ==> a + 2 < r.value < |s| && WordTail(s, r.value) && IsSpace(s[r.value - 1])
  {
    if !KeywordAt(s, a, "AS") then None
    else
      var k := WsRun(s, a + 2);
      WsRunSpaces(s, a + 2);
      if k > 0 && WordTail(s, a + 2 + k) then Some(a + 2 + k) else None
  }

  /** `(?:AS\s+)?(\w+)$` at `a`, the optional `AS` tried first: where the alias starts. */
  function AliasStart(s: string, a: nat): (r: Option<nat>)
    requires a <= |s|
    ensures r.Some? ==> a <= r.value < |s| && WordTail(s, r.value)
  {
    match AsAlias(s, a)
    case Some(b) => Some(b)
    case None => if WordTail(s, a) then Some(a) else None
  }

  /** `\s+(?:AS\s+)?(\w+)$` matched from `e`: the alias word, when it matches. */
  function AliasTail(s: string, e: nat): (r: Option<string>)
    requires e <= |s|
    ensures r.Some? ==> r.value != [] && e < |s| - |r.value| && r.value == s[|s| - |r.value|..]
  {
    var a := e + WsRun(s, e);
    if a == e then None
    else
      match AliasStart(s, a)
      case Some(b) => Some(s[b..])
      case None => None
  }

  /** The alias is a run of word characters with whitespace right before it. */
  lemma AliasTailShape(s: string, e: nat)
    requires e <= |s| && AliasTail(s, e).Some?
    ensures var w := AliasTail(s, e).value;
      AllWordChars(w) && IsSpace(s[|s| - |w| - 1])
  {
    var a := e + WsRun(s, e);
    var b := AliasStart(s, a).value;
    WordRunChars(s, b);
    if AsAlias(s, a).None? {
      WsRunSpaces(s, e);
      assert b == a;
    }
  }

  /** The alias tail tried after every head length. */
  function AliasTails(s: string): nat -> Option<string> {
    (e: nat) => if e <= |s| then AliasTail(s, e) else None
  }

  /** `^(.+?)\s+(?:AS\s+)?(\w+)$`, case-insensitive. */
  function AliasMatch(s: string): Option<Lazy<string>> {
    if s == [] then None else LazyFrom(s, AliasTails(s), 1)
  }

  /** With the parser's table, the match's head is shorter than the text and the tail is the alias pattern. */
  lemma AliasMatchHit(s: string)
    requires AliasMatch(s).Some?
    ensures var h := AliasMatch(s).value;
      1 <= h.headEnd < |s| && AliasTail(s, h.headEnd) == Some(h.hit)
      && (forall k :: 0 <= k < h.headEnd ==> !IsLineTerminator(s[k]))
      && (forall e :: 1 <= e < h.headEnd ==> AliasTail(s, e).None?)
  {
    var h := AliasMatch(s).value;
    LazyFromHit(s, AliasTails(s), 1);
    LazyFromOneLine(s, AliasTails(s), 1);
    LazyFromFirst(s, AliasTails(s), 1);
    assert AliasTails(s)(h.headEnd) == AliasTail(s, h.headEnd);
    forall e | 1 <= e < h.headEnd
      ensures AliasTail(s, e).None?
    {
      assert AliasTails(s)(e) == AliasTail(s, e);
    }
  }

  /** The aggregate names `parseField` recognises. */
  const AggNames: seq<string> := ["COUNT", "SUM", "AVG", "MIN", "MAX"]

  /** `^KW\s*\(`: the text starts with the keyword, any whitespace, and an opening parenthesis. */
  predicate AggCall(s: string, kw: string) {
    KeywordAt(s, 0, kw) && |kw| + WsRun(s, |kw|) < |s| && s[|kw| + WsRun(s, |kw|)] == '('
  }

  /** `^(COUNT|SUM|AVG|MIN|MAX)\s*\(`, case-insensitive: the aggregate's name, upper-cased. */
  function AggName(s: string): (r: Option<string>)
    ensures r.Some? ==> r.value in AggNames && AggCall(s, r.value)
  {
    if AggCall(s, "COUNT") then Some("COUNT")
    else if AggCall(s, "SUM") then Some("SUM")
    else if AggCall(s, "AVG") then Some("AVG")
    else if AggCall(s, "MIN") then Some("MIN")
    else if AggCall(s, "MAX") then Some("MAX")
    else None
  }

  /** Length of the run of characters other than line terminators from `i` (greedy `.*`). */
  function DotRun(s: string, i: nat): (r: nat)
    requires i <= |s|
    ensures i + r <= |s|
    decreases |s| - i
  {
    if i < |s| && !IsLineTerminator(s[i]) then 1 + DotRun(s, i + 1) else 0
  }

  /** A greedy `.*` covers no line terminator. */
  lemma {:induction false} DotRunSpan(s: string, i: nat)
    requires i <= |s|
    ensures NoLineTerminator(s[i..i + DotRun(s, i)])
    ensures i + DotRun(s, i) == |s| || IsLineTerminator(s[i + DotRun(s, i)])
    decreases |s| - i
  {
    if i < |s| && !IsLineTerminator(s[i]) {
      DotRunSpan(s, i + 1);
      assert s[i..i + DotRun(s, i)] == [s[i]] + s[i + 1..i + 1 + DotRun(s, i + 1)];
    }
  }

  /** The last `)` in `s[lo..hi]`, if any. */
  function LastClose(s: string, lo: nat, hi: nat): (r: Option<nat>)
    requires lo <= hi <= |s|
    ensures r.Some? ==> lo <= r.value < hi && s[r.value] == ')'
    ensures r.None? ==> forall j :: lo <= j < hi ==> s[j] != ')'
    decreases hi - lo
  {
    if hi == lo then None else if s[hi - 1] == ')' then Some(hi - 1) else LastClose(s, lo, hi - 1)
  }

  /**
   * `\((.+)\)` searched from `i`: the first `(` followed, on the same line, by
   * at least one character and a `)`; the capture runs to the last such `)`.
   */
  function InnerFrom(s: string, i: nat): (r: Option<string>)
    requires i <= |s|
    decreases |s| - i
  {
    if i == |s| then None
    else if s[i] == '(' && i + 1 < |s| && 1 <= DotRun(s, i + 1) then
      match LastClose(s, i + 2, i + 1 + DotRun(s, i + 1))
      case Some(j) => Some(s[i + 1..j])
      case None => InnerFrom(s, i + 1)
    else InnerFrom(s, i + 1)
  }

  /** `replace(/\)\s*$/, '')` on a trimmed text: one closing parenthesis at the very end is dropped. */
  function StripClose(t: string): (r: string)
    ensures |r| <= |t| && r == t[..|r|]
  {
    if t != [] && t[|t| - 1] == ')' then t[..|t| - 1] else t
  }

  /** A `table.column` reference. */
  datatype Qualified = Qualified(table: string, column: string)

  /** `^(\w+)\.(\w+)$`. */
  function TableField(t: string): (r: Option<Qualified>)
    ensures r.Some? ==> r.value.table != [] && r.value.column != [] && t == r.value.table + "." + r.value.column
  {
    var w := WordRun(t, 0);
    if w == 0 || w == |t| || t[w] != '.' || !WordTail(t, w + 1) then None
    else
      assert t == t[..w] + "." + t[w + 1..];
      Some(Qualified(t[..w], t[w + 1..]))
  }

  /** Both halves of a `table.column` match are word characters. */
  lemma TableFieldWords(t: string)
    requires TableField(t).Some?
    ensures AllWordChars(TableField(t).value.table) && AllWordChars(TableField(t).value.column)
  {
    var w := WordRun(t, 0);
    WordRunChars(t, 0);
    WordRunChars(t, w + 1);
  }

  /** The name `parseField` gives a text that is not `table.column`: `custom_field` for `*` or a call. */
  function BareName(t: string): (r: string)
    ensures r == t || r == "custom_field"
    ensures t == "*" || '(' in t ==> r == "custom_field"
    ensures t != "*" && '(' !in t ==> r == t
  {
    if t != "*" && '(' !in t then t else "custom_field"
  }

  /** The field read from the argument of an aggregate call, once cut out: `*`, `table.column` or a bare name. */
  function ArgField(inner: string, agg: string, alias: string): (f: Field)
    ensures f.agg == agg && f.alias == alias && f.expression == inner
    ensures inner == "*" ==> f.table.None? && f.name == "*"
    ensures TableField(inner).Some? ==> f.table == Some(TableField(inner).value.table) && f.name == TableField(inner).value.column
    ensures inner != "*" && TableField(inner).None? ==> f.table.None? && f.name == BareName(inner)
  {
    if inner == "*" then Field(None, "*", alias, agg, inner)
    else
      match TableField(inner)
      case Some(q) => Field(Some(q.table), q.column, alias, agg, inner)
      case None => Field(None, if '(' in inner then "custom_field" else inner, alias, agg, inner)
  }

  /** The field read from an aggregate call; without a parenthesised argument only `agg` is set. */
  function AggField(working: string, agg: string, alias: string): (f: Field)
    ensures f.agg == agg && f.alias == alias
  {
    match InnerFrom(working, 0)
    case None => Field(None, "custom_field", alias, agg, working)
    case Some(raw) => ArgField(Trim(StripClose(Trim(raw))), agg, alias)
  }

  /** The field read from text without an aggregate call. */
  function PlainField(working: string, alias: string): (f: Field)
    ensures f.agg == "" && f.alias == alias && f.expression == working
  {
    match TableField(working)
    case Some(q) => Field(Some(q.table), q.column, alias, "", working)
    case None => Field(None, BareName(working), alias, "", working)
  }

  /** The text `parseField` reads once the alias is cut off, and the alias. */
  function Unaliased(text: string): (r: (string, string))
  {
    match AliasMatch(text)
    case Some(h) => (Trim(text[..h.headEnd]), h.hit)
    case None => (text, "")
  }

  /** `parseField`: split off the alias, then read an aggregate call or a plain reference. */
  function ParseField(text: string): (f: Field)
    ensures f.agg == "" || f.agg in AggNames
  {
    var (working, alias) := Unaliased(text);
    match AggName(working)
    case Some(agg) => AggField(working, agg, alias)
    case None => PlainField(working, alias)
  }

  // ---------------------------------------------------------------------
  // What parseField promises

  /** The alias, when there is one, is a non-empty run of word characters. */
  lemma FieldAliasIsWord(text: string)
    ensures var f := ParseField(text);
      f.alias == "" || (f.alias != [] && AllWordChars(f.alias))
  {
    if AliasMatch(text).Some? {
      var h := AliasMatch(text).value;
      AliasMatchHit(text);
      AliasTailShape(text, h.headEnd);
    }
  }

  /** A text without whitespace has no alias. */
  lemma NoSpaceNoAlias(s: string)
    requires NoSpace(s)
    ensures AliasMatch(s).None?
  {
    if AliasMatch(s).Some? {
      AliasMatchHit(s);
    }
  }

  /** After `x`, the tail ` w` is the alias pattern with alias `w`. */
  lemma SpaceWordTail(x: string, w: string)
    requires w != [] && AllWordChars(w)
    ensures AliasTail(x + " " + w, |x|) == Some(w)
  {
    var s := x + " " + w;
    var n := |x|;
    assert s[n] == ' ' && s[n + 1..] == w;
    assert WsRun(s, n + 1) == 0;
    assert WsRun(s, n) == 1;
    WordTailOf(s, n + 1);
  }

  /** Two suffixes made of word characters, each with whitespace before it, are the same. */
  lemma WordSuffixUnique(s: string, v: string, w: string)
    requires v != [] && |v| < |s| && v == s[|s| - |v|..] && AllWordChars(v) && IsSpace(s[|s| - |v| - 1])
    requires w != [] && |w| < |s| && w == s[|s| - |w|..] && AllWordChars(w) && IsSpace(s[|s| - |w| - 1])
    ensures v == w
  {
  }

  /** The alias `parseField` reports is the alias match's, or empty without one. */
  lemma FieldAlias(text: string)
    ensures ParseField(text).alias == if AliasMatch(text).Some? then AliasMatch(text).value.hit else ""
  {
  }

  /** A trailing bare word after whitespace is always taken as the alias, whatever comes before it. */
  lemma TrailingWordIsAlias(x: string, w: string)
    requires x != [] && NoLineTerminator(x)
    requires w != [] && AllWordChars(w)
    ensures AliasMatch(x + " " + w).Some? && AliasMatch(x + " " + w).value.hit == w
    ensures ParseField(x + " " + w).alias == w
  {
    var s := x + " " + w;
    TrailingWordMatch(x, w);
    FieldAlias(s);
  }

  lemma TrailingWordMatch(x: string, w: string)
    requires x != [] && NoLineTerminator(x)
    requires w != [] && AllWordChars(w)
    ensures AliasMatch(x + " " + w).Some? && AliasMatch(x + " " + w).value.hit == w
  {
    var s := x + " " + w;
    var n := |x|;
    SpaceWordTail(x, w);
    assert AliasTails(s)(n) == Some(w);
    forall k | 0 <= k < n
      ensures !IsLineTerminator(s[k])
    {
      assert s[k] == x[k];
    }
    LazyFromFinds(s, AliasTails(s), 1, n);
    var h := AliasMatch(s).value;
    LazyFromHit(s, AliasTails(s), 1);
    assert AliasTails(s)(h.headEnd) == AliasTail(s, h.headEnd);
    AliasTailShape(s, h.headEnd);
    assert s[|s| - |w|..] == w && s[|s| - |w| - 1] == ' ';
    WordSuffixUnique(s, h.hit, w);
  }

  /** Word characters from `b` to the end make a word tail. */
  lemma WordTailOf(s: string, b: nat)
    requires b < |s| && forall k :: b <= k < |s| ==> IsWordChar(s[k])
    ensures WordTail(s, b)
  {
    WordRunAll(s, b);
  }

  lemma {:induction false} WordRunAll(s: string, b: nat)
    requires b <= |s| && forall k :: b <= k < |s| ==> IsWordChar(s[k])
    ensures b + WordRun(s, b) == |s|
    decreases |s| - b
  {
    if b < |s| {
      WordRunAll(s, b + 1);
    }
  }

  /** An aggregate call needs an opening parenthesis. */
  lemma AggNeedsParen(s: string)
    requires '(' !in s
    ensures AggName(s).None?
  {
  }

  /** `table.column` is read as that table and column, with no alias and no aggregate. */
  lemma QualifiedField(t: string, c: string)
    requires t != [] && AllWordChars(t) && c != [] && AllWordChars(c)
    ensures ParseField(t + "." + c) == Field(Some(t), c, "", "", t + "." + c)
  {
    var s := t + "." + c;
    assert NoSpace(s) by {
      forall k | 0 <= k < |s|
        ensures !IsSpace(s[k])
      {
        if k < |t| { assert s[k] == t[k]; } else if k > |t| { assert s[k] == c[k - |t| - 1]; }
      }
    }
    NoSpaceNoAlias(s);
    assert '(' !in s by {
      forall k | 0 <= k < |s|
        ensures s[k] != '('
      {
        if k < |t| { assert s[k] == t[k]; } else if k > |t| { assert s[k] == c[k - |t| - 1]; }
      }
    }
    AggNeedsParen(s);
    QualifiedMatch(t, c);
  }

  /** `^(\w+)\.(\w+)$` splits `table.column` at the dot. */
  lemma QualifiedMatch(t: string, c: string)
    requires t != [] && AllWordChars(t) && c != [] && AllWordChars(c)
    ensures TableField(t + "." + c) == Some(Qualified(t, c))
  {
    var s := t + "." + c;
    assert s[..|t|] == t && s[|t|] == '.';
    WordRunPrefix(s, t);
    WordTailOf(s, |t| + 1);
    assert s[|t| + 1..] == c;
  }

  /** The alias does not take part in reading the rest of the field. */
  lemma AliasIndependent(working: string, alias: string)
    ensures (match AggName(working) case Some(agg) => AggField(working, agg, alias) case None => PlainField(working, alias))
      == (match AggName(working) case Some(agg) => AggField(working, agg, "") case None => PlainField(working, "")).(alias := alias)
  {
  }

  /** `x AS w`, where `x` has no whitespace, is `x` read on its own with the alias `w`. */
  lemma AliasedField(x: string, w: string)
    requires x != [] && NoSpace(x)
    requires w != [] && AllWordChars(w)
    ensures ParseField(x + " AS " + w) == ParseField(x).(alias := w)
  {
    var s := x + " AS " + w;
    AsAliasMatch(x, w);
    assert s[..|x|] == x;
    TrimOfTrimmed(x);
    NoSpaceNoAlias(x);
    AliasIndependent(x, w);
  }

  /** The alias pattern cuts `x AS w` right after `x`. */
  lemma AsAliasMatch(x: string, w: string)
    requires x != [] && NoSpace(x)
    requires w != [] && AllWordChars(w)
    ensures AliasMatch(x + " AS " + w) == Some(Lazy(|x|, w))
  {
    var s := x + " AS " + w;
    var n := |x|;
    AsTail(x, w);
    assert AliasTails(s)(n) == Some(w);
    forall k | 0 <= k < n
      ensures !IsLineTerminator(s[k])
    {
      assert s[k] == x[k];
    }
    forall e | 1 <= e < n
      ensures AliasTails(s)(e).None?
    {
      assert s[e] == x[e];
      NonSpaceNoTail(s, e);
    }
    LazyFromFinds(s, AliasTails(s), 1, n);
    LazyFromHit(s, AliasTails(s), 1);
  }

  /** The alias tail needs whitespace where it starts. */
  lemma NonSpaceNoTail(s: string, e: nat)
    requires e < |s| && !IsSpace(s[e])
    ensures AliasTail(s, e).None?
  {
    assert WsRun(s, e) == 0;
  }

  /** After `x`, the tail ` AS w` is the alias pattern with alias `w`. */
  lemma AsTail(x: string, w: string)
    requires w != [] && AllWordChars(w)
    ensures AliasTail(x + " AS " + w, |x|) == Some(w)
  {
    var s := x + " AS " + w;
    var n := |x|;
    assert s[n] == ' ' && s[n + 1] == 'A' && s[n + 2] == 'S' && s[n + 3] == ' ' && s[n + 4..] == w;
    assert WsRun(s, n + 1) == 0;
    assert WsRun(s, n) == 1;
    assert WsRun(s, n + 4) == 0;
    assert WsRun(s, n + 3) == 1;
    WordTailOf(s, n + 4);
    assert AsAlias(s, n + 1) == Some(n + 4);
  }

  /** A text that ends with `)` has no alias: the alias pattern ends with a word character. */
  lemma CloseNoAlias(s: string)
    requires s != [] && s[|s| - 1] == ')'
    ensures AliasMatch(s).None?
  {
    if AliasMatch(s).Some? {
      var h := AliasMatch(s).value;
      AliasMatchHit(s);
      AliasTailShape(s, h.headEnd);
    }
  }

  /** Each aggregate name followed by `(` is recognised as that aggregate. */
  lemma AggNameOfCall(a: string, rest: string)
    requires a in AggNames && rest != [] && rest[0] == '('
    ensures AggName(a + rest) == Some(a)
  {
    var s := a + rest;
    assert s[..|a|] == a && s[|a|] == '(';
    assert WsRun(s, |a|) == 0;
    if a == "COUNT" {
      assert AggCall(s, "COUNT");
    } else if a == "SUM" {
      assert !AggCall(s, "COUNT") && AggCall(s, "SUM");
    } else if a == "AVG" {
      assert !AggCall(s, "COUNT") && !AggCall(s, "SUM") && AggCall(s, "AVG");
    } else if a == "MIN" {
      assert !AggCall(s, "COUNT") && !AggCall(s, "SUM") && !AggCall(s, "AVG") && AggCall(s, "MIN");
    } else {
      assert !AggCall(s, "COUNT") && !AggCall(s, "SUM") && !AggCall(s, "AVG") && !AggCall(s, "MIN");
      assert AggCall(s, "MAX");
    }
  }

  /** Positions without `(` are passed over by the search for `\((.+)\)`. */
  lemma {:induction false} InnerFromSkip(s: string, i: nat, j: nat)
    requires i <= j <= |s| && forall k :: i <= k < j ==> s[k] != '('
    ensures InnerFrom(s, i) == InnerFrom(s, j)
    decreases j - i
  {
    if i < j {
      InnerFromSkip(s, i + 1, j);
    }
  }

  /** Without line terminators, `.*` runs to the end of the text. */
  lemma {:induction false} DotRunAll(s: string, i: nat)
    requires i <= |s| && forall k :: i <= k < |s| ==> !IsLineTerminator(s[k])
    ensures i + DotRun(s, i) == |s|
    decreases |s| - i
  {
    if i < |s| {
      DotRunAll(s, i + 1);
    }
  }

  /** In `a(x)` with `x` on one line, the parenthesised argument is `x`. */
  lemma InnerOfCall(a: string, x: string)
    requires a in AggNames && x != [] && NoLineTerminator(x)
    ensures InnerFrom(a + "(" + x + ")", 0) == Some(x)
  {
    var s := a + "(" + x + ")";
    var n := |a|;
    assert s[..n] == a && s[n] == '(' && s[n + 1..|s| - 1] == x && s[|s| - 1] == ')';
    InnerFromSkip(s, 0, n);
    forall k | n + 1 <= k < |s|
      ensures !IsLineTerminator(s[k])
    {
      if k < |s| - 1 {
        assert s[k] == x[k - n - 1];
      }
    }
    DotRunAll(s, n + 1);
  }

  /**
   * An aggregate call `a(x)` is read as the aggregate `a` over the field
   * `x`, when `x` is trimmed, on one line and does not end with `)`.
   */
  lemma AggCallField(a: string, x: string)
    requires a in AggNames && x != [] && NoLineTerminator(x) && Trim(x) == x && x[|x| - 1] != ')'
    ensures ParseField(a + "(" + x + ")") == ArgField(x, a, "")
  {
    var s := a + "(" + x + ")";
    CloseNoAlias(s);
    AggNameOfCall(a, "(" + x + ")");
    assert s == a + ("(" + x + ")");
    InnerOfCall(a, x);
  }

  /** `COUNT(*)` and the other aggregates over `*`: the name `*`, no table, and `*` as the expression. */
  lemma AggStarField(a: string)
    requires a in AggNames
    ensures ParseField(a + "(*)") == Field(None, "*", "", a, "*")
  {
    assert a + "(" + "*" + ")" == a + "(*)";
    TrimOfTrimmed("*");
    AggCallField(a, "*");
  }

  /**
   * A text that is neither an aggregate call nor `table.column` (once the
   * alias is cut off) has no table, and its name is `custom_field` for `*`
   * or a text with a parenthesis, the text itself otherwise.
   */
  lemma BareFieldName(text: string)
    ensures var working := Unaliased(text).0;
      AggName(working).None? && TableField(working).None? ==>
        ParseField(text).table.None? && ParseField(text).agg == ""
        && (working == "*" || '(' in working ==> ParseField(text).name == "custom_field")
        && (working != "*" && '(' !in working ==> ParseField(text).name == working)
  {
  }
}
