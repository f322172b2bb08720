/**
 * Cutting a leading `WITH` region off a statement (`separateCTEsFromMain`)
 * and recognising one CTE definition `name AS (body)` (the pattern of
 * `parseSingleCTE`).
 */
module CteSplit {
  import opened Wrappers
  import opened Text
  import opened Scan
  import opened Patterns

  /** `/^WITH\s+/i`: the text starts with `WITH` in any letter case and a whitespace character. */
  predicate StartsWithWith(s: string) {
    KeywordAt(s, 0, "WITH") && |s| > 4 && IsSpace(s[4])
  }

  /** `/^\s*SELECT\s+/i` matched against `s[i..]`. */
  predicate SelectHeadAt(s: string, i: nat)
    requires i <= |s|
  {
    var a := i + WsRun(s, i);
    KeywordAt(s, a, "SELECT") && a + 6 < |s| && IsSpace(s[a + 6])
  }

  /** A text where `SELECT` matches starts with whitespace or a letter. */
  lemma SelectHeadStart(s: string, i: nat)
    requires i < |s| && SelectHeadAt(s, i)
    ensures IsSpace(s[i]) || IsWordChar(s[i])
  {
    if !IsSpace(s[i]) {
      assert WsRun(s, i) == 0;
      KeywordStart(s, i, "SELECT");
    }
  }

  /**
   * Where the scan that started at `lo` finds the main statement: the first
   * position at or after `i`, at depth 0 outside quotes, where `SELECT`
   * follows; `|s|` when there is none.
   */
  function SelectStart(s: string, lo: nat, i: nat): (r: nat)
    requires lo <= i <= |s|
    ensures i <= r <= |s|
    decreases |s| - i
  {
    if i == |s| then |s|
    else if TopLevel(s, lo, i) && SelectHeadAt(s, i) then i
    else SelectStart(s, lo, i + 1)
  }

  /** The position `SelectStart` finds is a top-level `SELECT`, and there is none before it. */
  lemma {:induction false} SelectStartIsFirst(s: string, lo: nat, i: nat)
    requires lo <= i <= |s|
    ensures var r := SelectStart(s, lo, i);
      (r < |s| ==> TopLevel(s, lo, r) && SelectHeadAt(s, r))
      && forall j :: i <= j < r ==> !(TopLevel(s, lo, j) && SelectHeadAt(s, j))
    decreases |s| - i
  {
    if i < |s| && !(TopLevel(s, lo, i) && SelectHeadAt(s, i)) {
      SelectStartIsFirst(s, lo, i + 1);
    }
  }

  /** The two halves of a statement: the CTE text (`None` when there is no `WITH`) and the main statement. */
  datatype Parts = Parts(ctesPart: Option<string>, mainPart: string)

  /** Where the CTE scan starts: after `WITH ` and any further whitespace. */
  function CteScanStart(s: string): (i0: nat)
    requires |s| >= 5
    ensures 5 <= i0 <= |s|
  {
    5 + WsRun(s, 5)
  }

  /** What `separateCTEsFromMain` returns. */
  function SeparateParts(s: string): Parts {
    if !StartsWithWith(s) then Parts(None, s)
    else
      var i0 := CteScanStart(s);
      var r := SelectStart(s, i0, i0);
      if r < |s| then Parts(Some(Trim(s[5..r])), Trim(s[r..]))
      else Parts(Some(Trim(s[5..])), "")
  }

  /** `separateCTEsFromMain`: skip the blanks after `WITH `, then scan for a top-level `SELECT`. */
  method SeparateCtesFromMain(sql: string) returns (parts: Parts)
    ensures parts == SeparateParts(sql)
  {
    if !StartsWithWith(sql) {
      return Parts(None, sql);
    }
    var i := 5;
    while i < |sql| && IsSpace(sql[i])
      invariant 5 <= i <= |sql|
      invariant WsRun(sql, 5) == (i - 5) + WsRun(sql, i)
    {
      i := i + 1;
    }
    ghost var i0 := i;
    assert i0 == CteScanStart(sql);
    var st := Top;
    StateAtStart(sql, i0);
    while i < |sql|
      invariant i0 <= i <= |sql|
      invariant st == StateAt(sql, i0, i)
      invariant SelectStart(sql, i0, i0) == SelectStart(sql, i0, i)
    {
      var c := sql[i];
      var next := Step(st, sql, i);
      StateAtStep(sql, i0, i);
      if next.quote.None? && c != '(' && c != ')' && next.depth == 0 && SelectHeadAt(sql, i) {
        SelectHeadStart(sql, i);
        StepPlain(st, sql, i);
        return Parts(Some(Trim(sql[5..i])), Trim(sql[i..]));
      }
      if SelectHeadAt(sql, i) {
        SelectHeadStart(sql, i);
        StepPlain(st, sql, i);
      }
      st := next;
      i := i + 1;
    }
    return Parts(Some(Trim(sql[5..])), "");
  }

  /** Without a leading `WITH `, there is no CTE part and the main statement is the whole text. */
  lemma NoWithKeepsAll(s: string)
    requires !StartsWithWith(s)
    ensures SeparateParts(s).ctesPart.None? && SeparateParts(s).mainPart == s
  {
  }

  /**
   * With a leading `WITH ` and a top-level `SELECT` after it, the main
   * statement is the trimmed text from the first such position and starts
   * with `SELECT`; the CTE part is the trimmed text between `WITH ` and it.
   */
  lemma MainPartStartsWithSelect(s: string)
    requires StartsWithWith(s) && SelectStart(s, CteScanStart(s), CteScanStart(s)) < |s|
    ensures var r := SelectStart(s, CteScanStart(s), CteScanStart(s));
      SeparateParts(s) == Parts(Some(Trim(s[5..r])), Trim(s[r..]))
    ensures KeywordAt(SeparateParts(s).mainPart, 0, "SELECT")
  {
    var r := SelectStart(s, CteScanStart(s), CteScanStart(s));
    assert SeparateParts(s).mainPart == Trim(s[r..]);
    SelectStartIsFirst(s, CteScanStart(s), CteScanStart(s));
    SelectHeadSlice(s, r);
  }

  /** `SELECT` after the blanks at `r` is `SELECT` at the start of the trimmed rest. */
  lemma SelectHeadSlice(s: string, r: nat)
    requires r < |s| && SelectHeadAt(s, r)
    ensures KeywordAt(Trim(s[r..]), 0, "SELECT")
  {
    var x := s[r..];
    var k := WsRun(s, r);
    WsRunSlice(s, r);
    assert x[k..k + 6] == s[r + k..r + k + 6];
    KeywordSlice(s, r + k, x, k, "SELECT");
    KeywordChar(x, k, "SELECT", 5);
    TrimStartsWithKeyword(x, k, "SELECT");
  }

  /** Without a top-level `SELECT`, everything after `WITH ` is CTE text and the main statement is empty. */
  lemma AllCtesWithoutSelect(s: string)
    requires StartsWithWith(s) && SelectStart(s, CteScanStart(s), CteScanStart(s)) == |s|
    ensures SeparateParts(s) == Parts(Some(Trim(s[5..])), "")
  {
  }

  /** The whitespace run at `r` is the whitespace run at the start of `s[r..]`. */
  lemma {:induction false} WsRunSlice(s: string, r: nat)
    requires r <= |s|
    ensures WsRun(s[r..], 0) == WsRun(s, r)
    decreases |s| - r
  {
    if r < |s| && IsSpace(s[r]) {
      WsRunSlice(s, r + 1);
      WsRunShift(s[r..], 1);
      assert s[r..][1..] == s[r + 1..];
    }
  }

  /** Dropping the first character shifts every whitespace run by one. */
  lemma {:induction false} WsRunShift(x: string, i: nat)
    requires 1 <= i <= |x|
    ensures WsRun(x, i) == WsRun(x[1..], i - 1)
    decreases |x| - i
  {
    if i < |x| && IsSpace(x[i]) {
      WsRunShift(x, i + 1);
    }
  }

  /** A text made of whitespace and then a keyword keeps the keyword at its start once trimmed. */
  lemma TrimStartsWithKeyword(x: string, k: nat, kw: string)
    requires k == WsRun(x, 0) && KeywordAt(x, k, kw) && kw != [] && 'A' <= kw[0] <= 'Z'
    requires !IsSpace(x[k + |kw| - 1])
    ensures KeywordAt(Trim(x), 0, kw)
  {
    var a := TrimSlice(x);
    var n := |Trim(x)|;
    KeywordStart(x, k, kw);
    WsRunSpaces(x, 0);
    assert a == k;
    assert a + n >= k + |kw|;
    assert Trim(x)[0..|kw|] == x[k..k + |kw|];
    KeywordSlice(x, k, Trim(x), 0, kw);
  }

  // ---------------------------------------------------------------------
  // One CTE definition

  /** The name and body of `/^(\w+)\s+AS\s+\((.+)\)$/i`, when it matches. */
  datatype CteDef = CteDef(name: string, body: string)

  /**
   * `name AS (body)`: a run of word characters, whitespace, `AS` in any case,
   * whitespace, `(`, a non-empty body without line terminators, and a final
   * `)` at the very end.
   */
  function MatchCteDef(t: string): (r: Option<CteDef>)
    ensures r.Some? ==> r.value.name != [] && AllWordChars(r.value.name)
    ensures r.Some? ==> r.value.body != [] && NoLineTerminator(r.value.body)
    ensures r.Some? ==> |r.value.name| < |t| && t[|t| - 1] == ')' && t[..|r.value.name|] == r.value.name
  {
    var w := WordRun(t, 0);
    WordRunChars(t, 0);
    if w == 0 then None
    else
      var b := w + WsRun(t, w);
      if b == w || !KeywordAt(t, b, "AS") then None
      else
        var d := b + 2 + WsRun(t, b + 2);
        if d == b + 2 || d + 2 >= |t| || t[d] != '(' || t[|t| - 1] != ')' then None
        else
          var body := t[d + 1..|t| - 1];
          if NoLineTerminator(body) then Some(CteDef(t[..w], body)) else None
  }

  /** Writing a definition the canonical way and matching it gives back its name and body. */
  lemma CteDefRoundTrip(name: string, body: string)
    requires name != [] && AllWordChars(name)
    requires body != [] && NoLineTerminator(body)
    ensures MatchCteDef(name + " AS (" + body + ")") == Some(CteDef(name, body))
  {
    var t := name + " AS (" + body + ")";
    var n := |name|;
    CanonicalCteShape(name, body);
    assert t[n + 5..|t| - 1] == body;
  }

  /** Where the parts of `name AS (body)` sit. */
  lemma CanonicalCteShape(name: string, body: string)
    requires name != [] && AllWordChars(name)
    ensures var t := name + " AS (" + body + ")"; var n := |name|;
      |t| == n + |body| + 6 && t[..n] == name && WordRun(t, 0) == n
      && WsRun(t, n) == 1 && KeywordAt(t, n + 1, "AS") && WsRun(t, n + 3) == 1
      && t[n + 4] == '(' && t[|t| - 1] == ')'
  {
    var t := name + " AS (" + body + ")";
    var n := |name|;
    assert t[..n] == name;
    assert t[n] == ' ' && t[n + 1] == 'A' && t[n + 2] == 'S' && t[n + 3] == ' ' && t[n + 4] == '(';
    WordRunPrefix(t, name);
    assert WsRun(t, n + 1) == 0;
    assert WsRun(t, n + 4) == 0;
  }
}
