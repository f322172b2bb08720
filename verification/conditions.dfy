/**
 * One condition read into a filter (`parseCondition`) or a JOIN comparison
 * (the comparison pattern of `parseJoin`), and a condition list cut at its
 * `AND`/`OR` connectives (`splitByLogicalOperators`).
 */
module Conditions {
  import opened Wrappers
  import opened Text
  import opened QueryModel
  import opened Patterns

  /** One alternative of an operator group: a fixed word or symbol, `IS\s+NULL` or `IS\s+NOT\s+NULL`. */
  datatype OpPattern = Lit(text: string) | IsNull | IsNotNull

  /** `=|!=|>|<|>=|<=|LIKE|IN|BETWEEN|IS\s+NULL|IS\s+NOT\s+NULL`, in the order they are tried. */
  const ConditionOps: seq<OpPattern> :=
    [Lit("="), Lit("!="), Lit(">"), Lit("<"), Lit(">="), Lit("<="),
     Lit("LIKE"), Lit("IN"), Lit("BETWEEN"), IsNull, IsNotNull]

  /** `=|!=|>|<|>=|<=`: the comparisons of a JOIN condition, in the order they are tried. */
  const JoinOps: seq<OpPattern> := [Lit("="), Lit("!="), Lit(">"), Lit("<"), Lit(">="), Lit("<=")]

  /** The operators a filter can carry: upper case, words separated by one space. */
  const ConditionOpNames: seq<string> :=
    ["=", "!=", ">", "<", ">=", "<=", "LIKE", "IN", "BETWEEN", "IS NULL", "IS NOT NULL"]

  /** The comparison operators a JOIN condition can carry. */
  const JoinOpNames: seq<string> := ["=", "!=", ">", "<", ">=", "<="]

  /** End of the alternative `op` matched at `q`, letters in any case. */
  function OpEnd(t: string, q: nat, op: OpPattern): (r: Option<nat>)
    requires q <= |t|
    ensures r.Some? ==> q < r.value <= |t|
  {
    match op
    case Lit(w) => if w != [] && KeywordAt(t, q, w) then Some(q + |w|) else None
    case IsNull => WordsEnd(t, q, "IS", "NULL")
    case IsNotNull =>
      match WordsEnd(t, q, "IS", "NOT")
      case None => None
      case Some(b) =>
        var c := b + WsRun(t, b);
        if c > b && KeywordAt(t, c, "NULL") then Some(c + 4) else None
  }

  /** No line terminator from `c` to the end: `.*$` matches there. */
  predicate OneLineFrom(t: string, c: nat) {
    forall k :: c <= k < |t| ==> !IsLineTerminator(t[k])
  }

  /**
   * `\s*(.*)$`, or `\s*(.+)$` when `nonEmpty`, matched from `p`: where the
   * captured value starts. The blanks are greedy and give back one
   * character only when `.+` would otherwise be left empty.
   */
  function ValueStart(t: string, p: nat, nonEmpty: bool): (r: Option<nat>)
    requires p <= |t|
    ensures r.Some? ==> p <= r.value <= |t| && OneLineFrom(t, r.value)
    ensures r.Some? && nonEmpty ==> r.value < |t|
  {
    var c := p + WsRun(t, p);
    if !OneLineFrom(t, c) then None
    else if !nonEmpty || c < |t| then Some(c)
    else if c > p && !IsLineTerminator(t[c - 1]) then Some(c - 1)
    else None
  }

  /** Which alternative matched, where the operator sits and where the value starts. */
  datatype OpHit = OpHit(op: OpPattern, opStart: nat, opEnd: nat, valueStart: nat)

  /**
   * The alternation `ops` at `q`, each alternative followed by the value
   * pattern: the first alternative after which the value matches wins.
   */
  function OpAt(t: string, q: nat, ops: seq<OpPattern>, nonEmpty: bool): (r: Option<OpHit>)
    requires q <= |t|
    ensures r.Some? ==> r.value.opStart == q && q < r.value.opEnd <= r.value.valueStart <= |t|
    ensures r.Some? ==> r.value.op in ops && OpEnd(t, q, r.value.op) == Some(r.value.opEnd)
    ensures r.Some? ==> ValueStart(t, r.value.opEnd, nonEmpty) == Some(r.value.valueStart)
    decreases |ops|
  {
    if ops == [] then None
    else
      match OpEnd(t, q, ops[0])
      case Some(oe) =>
        (match ValueStart(t, oe, nonEmpty)
         case Some(v) => Some(OpHit(ops[0], q, oe, v))
         case None => OpAt(t, q, ops[1..], nonEmpty))
      case None => OpAt(t, q, ops[1..], nonEmpty)
  }

  /**
   * `\s*`, the operator group and the value, tried after a field of length
   * `e`. No operator starts with whitespace, so of the ways to split the
   * blanks only the one that takes them all can let an operator match.
   */
  function CondTail(t: string, ops: seq<OpPattern>, nonEmpty: bool, e: nat): (r: Option<OpHit>)
    requires e <= |t|
    ensures r.Some? ==> e <= r.value.opStart < r.value.opEnd <= r.value.valueStart <= |t|
  {
    OpAt(t, e + WsRun(t, e), ops, nonEmpty)
  }

  /** `CondTail` after every field length. */
  function CondTails(t: string, ops: seq<OpPattern>, nonEmpty: bool): nat -> Option<OpHit> {
    (e: nat) => if e <= |t| then CondTail(t, ops, nonEmpty, e) else None
  }

  /** `^(.+?)\s*(ops)\s*(.*)$` (`(.+)$` when `nonEmpty`) on `t`: the field's end and the operator hit. */
  function CondMatch(t: string, ops: seq<OpPattern>, nonEmpty: bool): Option<Lazy<OpHit>> {
    if t == [] then None else LazyFrom(t, CondTails(t, ops, nonEmpty), 1)
  }

  /** The operator hit the condition pattern finds is the one the table gives for the field it found. */
  lemma CondMatchHit(t: string, ops: seq<OpPattern>, nonEmpty: bool)
    requires CondMatch(t, ops, nonEmpty).Some?
    ensures var h := CondMatch(t, ops, nonEmpty).value;
      1 <= h.headEnd <= |t| && CondTail(t, ops, nonEmpty, h.headEnd) == Some(h.hit)
    ensures var h := CondMatch(t, ops, nonEmpty).value;
      h.headEnd <= h.hit.opStart < h.hit.opEnd <= h.hit.valueStart <= |t|
      && h.hit.op in ops && OpEnd(t, h.hit.opStart, h.hit.op) == Some(h.hit.opEnd)
      && ValueStart(t, h.hit.opEnd, nonEmpty) == Some(h.hit.valueStart)
  {
    var h := CondMatch(t, ops, nonEmpty).value;
    LazyFromHit(t, CondTails(t, ops, nonEmpty), 1);
    assert CondTails(t, ops, nonEmpty)(h.headEnd) == CondTail(t, ops, nonEmpty, h.headEnd);
  }

  /** How a filter writes the operator an alternative matched. */
  function OpName(op: OpPattern): (r: string)
    ensures r != []
  {
    match op
    case Lit(w) => if w == [] then " " else w
    case IsNull => "IS NULL"
    case IsNotNull => "IS NOT NULL"
  }

  /** A keyword at `a` and the blank run at `g` right after it read as the keyword and the run once upper-cased. */
  lemma KeywordGap(t: string, a: nat, kw: string, g: nat, b: nat)
    requires g == a + |kw| && g <= |t| && KeywordAt(t, a, kw) && b == g + WsRun(t, g)
    ensures Upper(t[a..b]) == kw + t[g..b]
    ensures forall k :: g <= k < b ==> IsSpace(t[k])
  {
    WsRunSpaces(t, g);
    assert t[a..b] == t[a..g] + t[g..b];
    UpperAppend(t[a..g], t[g..b]);
    KeywordAtUpper(t, a, kw);
    UpperOfSpaces(t[g..b]);
  }

  /**
   * Upper-cased with its blanks collapsed, the text an operator alternative
   * matched is the alternative's name: `is  not\tnull` reads `IS NOT NULL`.
   */
  lemma OpTextName(t: string, q: nat, op: OpPattern, e: nat)
    requires q <= |t| && OpEnd(t, q, op) == Some(e)
    requires op.Lit? ==> NoSpace(op.text)
    ensures CollapseWs(Upper(t[q..e])) == OpName(op)
  {
    match op
    case Lit(w) =>
      KeywordAtUpper(t, q, w);
      CollapsePlain(w);
    case IsNull =>
      IsNullText(t, q, e);
    case IsNotNull =>
      IsNotNullText(t, q, e);
  }

  /** `IS\s+NULL` matched from `q` to `e` collapses to `IS NULL`. */
  lemma IsNullText(t: string, q: nat, e: nat)
    requires q <= |t| && WordsEnd(t, q, "IS", "NULL") == Some(e)
    ensures CollapseWs(Upper(t[q..e])) == "IS NULL"
  {
    var b := q + 2 + WsRun(t, q + 2);
    assert b > q + 2 && e == b + 4 && KeywordAt(t, b, "NULL");
    IsNullAt(t, q, b, e);
  }

  /** `IS\s+NULL` with `NULL` at `b` collapses to `IS NULL`. */
  lemma IsNullAt(t: string, q: nat, b: nat, e: nat)
    requires q + 2 <= |t| && KeywordAt(t, q, "IS") && b == q + 2 + WsRun(t, q + 2) && b > q + 2
    requires e == b + 4 && KeywordAt(t, b, "NULL")
    ensures CollapseWs(Upper(t[q..e])) == "IS NULL"
  {
    var x := t[q + 2..b];
    KeywordGap(t, q, "IS", q + 2, b);
    KeywordAtUpper(t, b, "NULL");
    assert t[q..e] == t[q..b] + t[b..e];
    UpperAppend(t[q..b], t[b..e]);
    assert forall k :: 0 <= k < |x| ==> IsSpace(x[k]);
    IsNullCollapse(x);
  }

  /** `IS`, a blank run and `NULL` collapse to `IS NULL`. */
  lemma IsNullCollapse(x: string)
    requires x != [] && forall k :: 0 <= k < |x| ==> IsSpace(x[k])
    ensures CollapseWs("IS" + x + "NULL") == "IS NULL"
  {
    NullWordsPlain();
    GapCollapse("IS", x, "NULL");
    NullNames();
  }

  /** The operator names `IS NULL` and `IS NOT NULL`, spelled out word by word. */
  lemma NullNames()
    ensures "IS" + " " + "NULL" == "IS NULL"
    ensures "IS" + " " + ("NOT" + " " + "NULL") == "IS NOT NULL"
  {
  }

  /** The words of `IS [NOT] NULL` hold no blanks. */
  lemma NullWordsPlain()
    ensures NoSpace("IS") && NoSpace("NOT") && NoSpace("NULL")
  {
  }

  /** Two words around a run of blanks collapse to the words around one space. */
  lemma GapCollapse(w1: string, x: string, w2: string)
    requires w1 != [] && NoSpace(w1) && w2 != [] && NoSpace(w2)
    requires x != [] && forall k :: 0 <= k < |x| ==> IsSpace(x[k])
    ensures CollapseWs(w1 + x + w2) == w1 + " " + w2
  {
    CollapseGap(w1, x, w2);
    CollapsePlain(w2);
  }

  /** `IS\s+NOT\s+NULL` matched from `q` to `e` collapses to `IS NOT NULL`. */
  lemma IsNotNullText(t: string, q: nat, e: nat)
    requires q <= |t| && OpEnd(t, q, IsNotNull) == Some(e)
    ensures CollapseWs(Upper(t[q..e])) == "IS NOT NULL"
  {
    var m := q + 2 + WsRun(t, q + 2);
    var c := m + 3 + WsRun(t, m + 3);
    assert WordsEnd(t, q, "IS", "NOT") == Some(m + 3);
    assert m > q + 2 && KeywordAt(t, m, "NOT") && c > m + 3 && KeywordAt(t, c, "NULL") && e == c + 4;
    IsNotNullAt(t, q, m, c, e);
  }

  /** `IS\s+NOT\s+NULL` with `NOT` at `m` and `NULL` at `c` collapses to `IS NOT NULL`. */
  lemma IsNotNullAt(t: string, q: nat, m: nat, c: nat, e: nat)
    requires q + 2 <= |t| && KeywordAt(t, q, "IS") && m == q + 2 + WsRun(t, q + 2) && m > q + 2
    requires m + 3 <= |t| && KeywordAt(t, m, "NOT") && c == m + 3 + WsRun(t, m + 3) && c > m + 3
    requires e == c + 4 && KeywordAt(t, c, "NULL")
    ensures CollapseWs(Upper(t[q..e])) == "IS NOT NULL"
  {
    KeywordGap(t, q, "IS", q + 2, m);
    KeywordGap(t, m, "NOT", m + 3, c);
    KeywordUpper(t, c, "NULL", e);
    IsNotNullPieces(t, q, m, c, e);
  }

  /** The pieces of `IS\s+NOT\s+NULL`, each upper-cased, put together and collapsed. */
  lemma IsNotNullPieces(t: string, q: nat, m: nat, c: nat, e: nat)
    requires q + 2 < m < m + 3 < c < c + 4 == e <= |t|
    requires Upper(t[q..m]) == "IS" + t[q + 2..m] && forall k :: q + 2 <= k < m ==> IsSpace(t[k])
    requires Upper(t[m..c]) == "NOT" + t[m + 3..c] && forall k :: m + 3 <= k < c ==> IsSpace(t[k])
    requires Upper(t[c..e]) == "NULL"
    ensures CollapseWs(Upper(t[q..e])) == "IS NOT NULL"
  {
    var x := t[q + 2..m];
    var y := t[m + 3..c];
    UpperSplit3(t, q, m, c, e);
    assert forall k :: 0 <= k < |x| ==> IsSpace(x[k]);
    assert forall k :: 0 <= k < |y| ==> IsSpace(y[k]);
    IsNotNullCollapse(x, y);
  }

  /** A keyword matched from `a` to `b` reads as the keyword once upper-cased. */
  lemma KeywordUpper(t: string, a: nat, kw: string, b: nat)
    requires b == a + |kw| && KeywordAt(t, a, kw)
    ensures Upper(t[a..b]) == kw
  {
    KeywordAtUpper(t, a, kw);
  }

  /** Upper-casing a slice cut in three upper-cases the three pieces. */
  lemma UpperSplit3(t: string, i: nat, j: nat, k: nat, l: nat)
    requires i <= j <= k <= l <= |t|
    ensures Upper(t[i..l]) == Upper(t[i..j]) + Upper(t[j..k]) + Upper(t[k..l])
  {
    assert t[i..l] == t[i..j] + t[j..k] + t[k..l];
    UpperAppend(t[i..j] + t[j..k], t[k..l]);
    UpperAppend(t[i..j], t[j..k]);
  }

  /** `IS`, blanks, `NOT`, blanks and `NULL` collapse to `IS NOT NULL`. */
  lemma IsNotNullCollapse(x: string, y: string)
    requires x != [] && forall k :: 0 <= k < |x| ==> IsSpace(x[k])
    requires y != [] && forall k :: 0 <= k < |y| ==> IsSpace(y[k])
    ensures CollapseWs(("IS" + x) + ("NOT" + y) + "NULL") == "IS NOT NULL"
  {
    assert ("IS" + x) + ("NOT" + y) + "NULL" == "IS" + x + ("NOT" + y + "NULL");
    NullWordsPlain();
    GapCollapse("NOT", y, "NULL");
    CollapseGap("IS", x, "NOT" + y + "NULL");
    NullNames();
  }

  /**
   * `parseCondition`: the trimmed field before the first operator that
   * lets the rest match, the operator upper-cased with its blanks collapsed,
   * and the trimmed value (empty when there is none); the connective is
   * `AND` until the WHERE reader sets it.
   */
  function ParseCondition(text: string): (r: Option<Filter>)
    ensures r.Some? ==> r.value.logic == "AND"
  {
    var t := Trim(text);
    match CondMatch(t, ConditionOps, false)
    case None => None
    case Some(h) =>
      CondMatchHit(t, ConditionOps, false);
      Some(Filter(Trim(t[..h.headEnd]), CollapseWs(Upper(t[h.hit.opStart..h.hit.opEnd])),
                  Trim(t[h.hit.valueStart..]), "AND"))
  }

  /** The comparison pattern of `parseJoin` on one ON condition: `left op right`, both sides trimmed. */
  function JoinCondOf(text: string): (r: Option<JoinCond>)
  {
    var t := Trim(text);
    match CondMatch(t, JoinOps, true)
    case None => None
    case Some(h) =>
      CondMatchHit(t, JoinOps, true);
      Some(JoinCond(Trim(t[..h.headEnd]), t[h.hit.opStart..h.hit.opEnd], Trim(t[h.hit.valueStart..])))
  }

  /** Each filter alternative is a fixed text without blanks or a NULL test, and is written as one of the eleven names. */
  lemma ConditionOpsNamed(op: OpPattern)
    requires op in ConditionOps
    ensures op.Lit? ==> NoSpace(op.text)
    ensures OpName(op) in ConditionOpNames
  {
  }

  /**
   * A filter read from a condition has a non-empty trimmed field, one of the
   * eleven operator names (upper case, single blanks) and a trimmed value.
   */
  lemma ParseConditionShape(text: string)
    requires ParseCondition(text).Some?
    ensures var f := ParseCondition(text).value;
      f.field != [] && Trim(f.field) == f.field && f.op in ConditionOpNames
      && Trim(f.value) == f.value && f.logic == "AND"
  {
    var t := Trim(text);
    var h := CondMatch(t, ConditionOps, false).value;
    CondMatchHit(t, ConditionOps, false);
    var f := Filter(Trim(t[..h.headEnd]), CollapseWs(Upper(t[h.hit.opStart..h.hit.opEnd])), Trim(t[h.hit.valueStart..]), "AND");
    assert ParseCondition(text) == Some(f);
    ConditionOpsNamed(h.hit.op);
    OpTextName(t, h.hit.opStart, h.hit.op, h.hit.opEnd);
    TrimEnds(text);
    HeadPart(t, h.headEnd);
    TailPart(t, h.hit.valueStart);
  }

  /** The trimmed text neither starts nor ends with a blank. */
  lemma TrimEnds(text: string)
    ensures var t := Trim(text); t == [] || (!IsSpace(t[0]) && !IsSpace(t[|t| - 1]))
  {
    var _ := TrimSlice(text);
  }

  /** A non-empty head of a text that does not start with a blank trims to a non-empty trimmed text. */
  lemma HeadPart(t: string, e: nat)
    requires 1 <= e <= |t| && !IsSpace(t[0])
    ensures Trim(t[..e]) != [] && Trim(Trim(t[..e])) == Trim(t[..e])
  {
    TrimKeepsNonBlank(t[..e], 0);
    TrimIdempotent(t[..e]);
  }

  /** A tail of a text trims to a trimmed text, and to a non-empty one when it is not empty and the text does not end with a blank. */
  lemma TailPart(t: string, v: nat)
    requires v <= |t|
    ensures Trim(Trim(t[v..])) == Trim(t[v..])
    ensures v < |t| && !IsSpace(t[|t| - 1]) ==> Trim(t[v..]) != []
  {
    TrimIdempotent(t[v..]);
    if v < |t| && !IsSpace(t[|t| - 1]) {
      TrimKeepsNonBlank(t[v..], |t| - 1 - v);
    }
  }

  /** Where a fixed text without letters matches, the characters are that text. */
  lemma {:induction false} SymbolAt(t: string, q: nat, w: string)
    requires KeywordAt(t, q, w) && forall m :: 0 <= m < |w| ==> !('A' <= w[m] <= 'Z')
    ensures t[q..q + |w|] == w
  {
    forall m | 0 <= m < |w|
      ensures t[q..q + |w|][m] == w[m]
    {
      KeywordChar(t, q, w, m);
    }
  }

  /** The comparisons of a JOIN condition are symbols, each written as itself. */
  lemma JoinOpsSymbols(op: OpPattern)
    requires op in JoinOps
    ensures op.Lit? && op.text in JoinOpNames && op.text != []
    ensures forall m :: 0 <= m < |op.text| ==> !('A' <= op.text[m] <= 'Z')
  {
  }

  /** Where a JOIN comparison matches, the text it covers is its symbol. */
  lemma JoinOpText(t: string, q: nat, op: OpPattern, e: nat)
    requires q <= |t| && op in JoinOps && OpEnd(t, q, op) == Some(e)
    ensures t[q..e] in JoinOpNames
  {
    JoinOpsSymbols(op);
    assert e == q + |op.text|;
    SymbolAt(t, q, op.text);
  }

  /** A JOIN comparison read from a condition has non-empty trimmed sides and one of the six comparison symbols. */
  lemma JoinCondShape(text: string)
    requires JoinCondOf(text).Some?
    ensures var c := JoinCondOf(text).value;
      c.left != [] && Trim(c.left) == c.left && c.op in JoinOpNames
      && c.right != [] && Trim(c.right) == c.right
  {
    var t := Trim(text);
    var h := CondMatch(t, JoinOps, true).value;
    CondMatchHit(t, JoinOps, true);
    var c := JoinCond(Trim(t[..h.headEnd]), t[h.hit.opStart..h.hit.opEnd], Trim(t[h.hit.valueStart..]));
    assert JoinCondOf(text) == Some(c);
    JoinOpText(t, h.hit.opStart, h.hit.op, h.hit.opEnd);
    TrimEnds(text);
    HeadPart(t, h.headEnd);
    TailPart(t, h.hit.valueStart);
  }

  // ---------------------------------------------------------------------
  // AND / OR

  /** Where a connective's word starts and ends, and where the whole match ends. */
  datatype Connective = Connective(wordStart: nat, wordEnd: nat, end: nat)

  /**
   * `\s+(AND|OR)\s+` matched at `q`, the word in any case. Both runs of
   * blanks are greedy, and giving any blank back cannot help: the word
   * does not start with one and nothing follows the second run.
   */
  function ConnectiveAt(t: string, q: nat): (r: Option<Connective>)
    requires q <= |t|
    ensures r.Some? ==> q < r.value.wordStart < r.value.wordEnd < r.value.end <= |t|
  {
    var a := q + WsRun(t, q);
    var n := if KeywordAt(t, a, "AND") then 3 else if KeywordAt(t, a, "OR") then 2 else 0;
    if a == q || n == 0 then None
    else
      var w := WsRun(t, a + n);
      if w == 0 then None else Some(Connective(a, a + n, a + n + w))
  }

  /** A connective matches at `q`. */
  predicate ConnectiveStartsAt(t: string, q: nat) {
    q <= |t| && ConnectiveAt(t, q).Some?
  }

  /** `ConnectiveStartsAt` as a table for the leftmost search. */
  function ConnectiveStarts(t: string): nat -> bool {
    (q: nat) => ConnectiveStartsAt(t, q)
  }

  /** One piece of a condition list: the trimmed condition and the upper-cased connective after it. */
  datatype Segment = Segment(condition: string, nextOperator: string)

  /**
   * `t.split(/\s+(AND|OR)\s+/i)` from `p`, read pairwise: each piece with the
   * connective after it, and `AND` after the last piece.
   */
  function SegmentsFrom(t: string, p: nat): (r: seq<Segment>)
    requires p <= |t|
    ensures r != []
    decreases |t| - p
  {
    var q := FirstFrom(ConnectiveStarts(t), p, |t|);
    match ConnectiveAt(t, q)
    case None => [Segment(Trim(t[p..]), "AND")]
    case Some(c) => [Segment(Trim(t[p..q]), Upper(t[c.wordStart..c.wordEnd]))] + SegmentsFrom(t, c.end)
  }

  /** `splitByLogicalOperators`: the pieces between connectives, parentheses and quotes notwithstanding. */
  function SplitByLogicalOperators(text: string): seq<Segment> {
    SegmentsFrom(text, 0)
  }

  /** The word of a connective reads `AND` or `OR` once upper-cased. */
  lemma ConnectiveWord(t: string, q: nat)
    requires q <= |t| && ConnectiveAt(t, q).Some?
    ensures var c := ConnectiveAt(t, q).value;
      Upper(t[c.wordStart..c.wordEnd]) == "AND" || Upper(t[c.wordStart..c.wordEnd]) == "OR"
  {
    var c := ConnectiveAt(t, q).value;
    if KeywordAt(t, c.wordStart, "AND") {
      KeywordAtUpper(t, c.wordStart, "AND");
    } else {
      KeywordAtUpper(t, c.wordStart, "OR");
    }
  }

  /** Every connective is `AND` or `OR`, the last segment's is `AND`, and every condition is trimmed. */
  lemma {:induction false} SegmentsShape(t: string, p: nat)
    requires p <= |t|
    ensures var r := SegmentsFrom(t, p);
      r[|r| - 1].nextOperator == "AND"
      && forall i :: 0 <= i < |r| ==>
           (r[i].nextOperator == "AND" || r[i].nextOperator == "OR") && Trim(r[i].condition) == r[i].condition
    decreases |t| - p
  {
    var q := FirstFrom(ConnectiveStarts(t), p, |t|);
    match ConnectiveAt(t, q)
    case None =>
      TrimIdempotent(t[p..]);
    case Some(c) =>
      ConnectiveWord(t, q);
      TrimIdempotent(t[p..q]);
      SegmentsShape(t, c.end);
  }

  /** The segments `splitByLogicalOperators` returns: `AND`/`OR` connectives, `AND` last, trimmed conditions. */
  lemma SplitShape(text: string)
    ensures var r := SplitByLogicalOperators(text);
      r != [] && r[|r| - 1].nextOperator == "AND"
      && forall i :: 0 <= i < |r| ==>
           (r[i].nextOperator == "AND" || r[i].nextOperator == "OR") && Trim(r[i].condition) == r[i].condition
  {
    SegmentsShape(text, 0);
  }

  /** Conditions written out with one blank on each side of their connectives; the last connective is not written. */
  function JoinSegments(segs: seq<Segment>): string
    requires segs != []
  {
    if |segs| == 1 then segs[0].condition
    else segs[0].condition + " " + segs[0].nextOperator + " " + JoinSegments(segs[1..])
  }

  /** Non-empty conditions without blanks, joined by `AND`/`OR`, with `AND` after the last. */
  predicate PlainSegments(segs: seq<Segment>) {
    segs != [] && segs[|segs| - 1].nextOperator == "AND"
    && forall i :: 0 <= i < |segs| ==>
         segs[i].condition != [] && NoSpace(segs[i].condition)
         && (segs[i].nextOperator == "AND" || segs[i].nextOperator == "OR")
  }

  /** No connective starts at a character that is not a blank. */
  lemma NonBlankNoConnective(t: string, k: nat)
    requires k < |t| && !IsSpace(t[k])
    ensures !ConnectiveStartsAt(t, k)
  {
    assert WsRun(t, k) == 0;
  }

  /**
   * Splitting conditions written with single blanks around `AND`/`OR` gives
   * them back, whatever they contain besides blanks: parentheses and quotes
   * inside the conditions play no part.
   */
  lemma SplitJoinedSegments(segs: seq<Segment>)
    requires PlainSegments(segs)
    ensures SplitByLogicalOperators(JoinSegments(segs)) == segs
  {
    var t := JoinSegments(segs);
    assert t[0..] == t;
    SegmentsOfJoined(t, 0, segs);
  }

  /** `SplitJoinedSegments` for the written-out conditions found from `p` on. */
  lemma {:induction false} SegmentsOfJoined(t: string, p: nat, segs: seq<Segment>)
    requires PlainSegments(segs) && p <= |t| && t[p..] == JoinSegments(segs)
    ensures SegmentsFrom(t, p) == segs
    decreases |segs|, 1
  {
    if |segs| == 1 {
      SegmentsLast(t, p, segs[0].condition);
      assert segs == [Segment(segs[0].condition, "AND")];
    } else {
      assert PlainSegments(segs[1..]);
      JoinedAt(t, p, segs);
      SegmentsAfterFirst(t, p, segs[0].condition, segs[0].nextOperator, segs[1..]);
      assert segs == [Segment(segs[0].condition, segs[0].nextOperator)] + segs[1..];
    }
  }

  /** A first condition and connective, then written-out conditions: the first segment, then those conditions. */
  lemma {:induction false} SegmentsAfterFirst(t: string, p: nat, x: string, op: string, rest: seq<Segment>)
    requires x != [] && NoSpace(x) && (op == "AND" || op == "OR")
    requires p + |x| + 2 + |op| < |t| && t[p..p + |x|] == x && t[p + |x|] == ' '
    requires t[p + |x| + 1..p + |x| + 1 + |op|] == op && t[p + |x| + 1 + |op|] == ' '
    requires !IsSpace(t[p + |x| + 2 + |op|])
    requires PlainSegments(rest) && t[p + |x| + 2 + |op|..] == JoinSegments(rest)
    ensures SegmentsFrom(t, p) == [Segment(x, op)] + rest
    decreases |rest| + 1, 0
  {
    SegmentsOfJoined(t, p + |x| + 2 + |op|, rest);
    SegmentsStep(t, p, x, op);
  }

  /** No connective starts inside a stretch without blanks. */
  lemma NoConnectiveIn(t: string, p: nat, x: string)
    requires p + |x| <= |t| && t[p..p + |x|] == x && NoSpace(x)
    ensures forall k :: p <= k < p + |x| ==> !ConnectiveStarts(t)(k)
  {
    forall k | p <= k < p + |x|
      ensures !ConnectiveStarts(t)(k)
    {
      assert t[k] == x[k - p];
      NonBlankNoConnective(t, k);
    }
  }

  /** A condition without blanks at the end of the text is the last segment. */
  lemma SegmentsLast(t: string, p: nat, x: string)
    requires x != [] && NoSpace(x) && p <= |t| && t[p..] == x
    ensures SegmentsFrom(t, p) == [Segment(x, "AND")]
  {
    assert t[p..p + |x|] == x;
    NoConnectiveIn(t, p, x);
    FirstFromNone(ConnectiveStarts(t), p, |t|);
    assert ConnectiveAt(t, |t|).None?;
    TrimOfTrimmed(x);
  }

  /** A condition without blanks, then one blank, `AND` or `OR` and one blank, then a non-blank. */
  lemma SegmentsStep(t: string, p: nat, x: string, op: string)
    requires x != [] && NoSpace(x) && (op == "AND" || op == "OR")
    requires p + |x| + 2 + |op| < |t| && t[p..p + |x|] == x && t[p + |x|] == ' '
    requires t[p + |x| + 1..p + |x| + 1 + |op|] == op && t[p + |x| + 1 + |op|] == ' '
    requires !IsSpace(t[p + |x| + 2 + |op|])
    ensures SegmentsFrom(t, p) == [Segment(x, op)] + SegmentsFrom(t, p + |x| + 2 + |op|)
  {
    var n := p + |x|;
    var c := Connective(n + 1, n + 1 + |op|, n + 2 + |op|);
    ConnectiveOf(t, n, op);
    NoConnectiveIn(t, p, x);
    FirstFromAt(ConnectiveStarts(t), p, |t|, n);
    TrimOfTrimmed(x);
    SegmentsFromCut(t, p, n, c);
  }

  /** `SegmentsFrom` once the first connective from `p` on is known. */
  lemma SegmentsFromCut(t: string, p: nat, q: nat, c: Connective)
    requires p <= q <= |t| && FirstFrom(ConnectiveStarts(t), p, |t|) == q && ConnectiveAt(t, q) == Some(c)
    ensures c.end <= |t|
    ensures SegmentsFrom(t, p) == [Segment(Trim(t[p..q]), Upper(t[c.wordStart..c.wordEnd]))] + SegmentsFrom(t, c.end)
  {
  }

  /** Where the first connective of written-out conditions sits, and what follows it. */
  lemma JoinedAt(t: string, p: nat, segs: seq<Segment>)
    requires |segs| > 1 && p <= |t| && t[p..] == JoinSegments(segs)
    requires segs[1].condition != [] && !IsSpace(segs[1].condition[0])
    ensures var n := p + |segs[0].condition|; var op := segs[0].nextOperator;
      n + 2 + |op| < |t| && t[p..n] == segs[0].condition && t[n] == ' ' && t[n + 1..n + 1 + |op|] == op && t[n + 1 + |op|] == ' '
      && !IsSpace(t[n + 2 + |op|]) && t[n + 2 + |op|..] == JoinSegments(segs[1..])
  {
    var x := segs[0].condition;
    var op := segs[0].nextOperator;
    var rest := JoinSegments(segs[1..]);
    var n := p + |x|;
    var s := t[p..];
    assert s == x + " " + op + " " + rest;
    assert s[|x|] == ' ' && s[|x| + 1 + |op|] == ' ';
    assert s[|x| + 1..|x| + 1 + |op|] == op;
    assert s[|x| + 2 + |op|..] == rest;
    assert s[..|x|] == x;
    assert rest[0] == segs[1].condition[0];
  }

  /** One blank, `AND` or `OR`, one blank and a non-blank: a connective, read back as the same word. */
  lemma ConnectiveOf(t: string, n: nat, op: string)
    requires op == "AND" || op == "OR"
    requires n + 2 + |op| < |t| && t[n] == ' ' && t[n + 1..n + 1 + |op|] == op && t[n + 1 + |op|] == ' '
    requires !IsSpace(t[n + 2 + |op|])
    ensures ConnectiveAt(t, n) == Some(Connective(n + 1, n + 1 + |op|, n + 2 + |op|))
    ensures Upper(t[n + 1..n + 1 + |op|]) == op
  {
    assert t[n + 1] == op[0];
    assert WsRun(t, n + 1) == 0;
    assert WsRun(t, n) == 1;
    assert WsRun(t, n + 2 + |op|) == 0;
    assert WsRun(t, n + 1 + |op|) == 1;
    if op == "AND" {
      assert t[n + 2] == 'N' && t[n + 3] == 'D';
      assert KeywordAt(t, n + 1, "AND");
    } else {
      assert t[n + 2] == 'R';
      assert !KeywordAt(t, n + 1, "AND") && KeywordAt(t, n + 1, "OR");
    }
  }

  /** Parentheses do not protect a connective: `(x OR y)` is cut into `(x` and `y)`. */
  lemma ParenthesesDoNotProtect(x: string, y: string)
    requires x != [] && NoSpace(x) && y != [] && NoSpace(y)
    ensures SplitByLogicalOperators("(" + x + " OR " + y + ")") == [Segment("(" + x, "OR"), Segment(y + ")", "AND")]
  {
    var segs := [Segment("(" + x, "OR"), Segment(y + ")", "AND")];
    assert JoinSegments(segs) == "(" + x + " OR " + y + ")";
    assert NoSpace("(" + x) by {
      forall k | 0 <= k < |x| + 1
        ensures !IsSpace(("(" + x)[k])
      {
        if k > 0 { assert ("(" + x)[k] == x[k - 1]; }
      }
    }
    assert NoSpace(y + ")") by {
      forall k | 0 <= k < |y| + 1
        ensures !IsSpace((y + ")")[k])
      {
        if k < |y| { assert (y + ")")[k] == y[k]; }
      }
    }
    SplitJoinedSegments(segs);
  }
}
