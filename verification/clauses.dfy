/**
 * Cutting one SELECT statement into its clauses (`splitQueryIntoParts`).
 *
 * SELECT, FROM, WHERE, GROUP BY and ORDER BY are each found by a pattern
 * `HEAD\s+(.*?)(?:\s+(?:STOP|...)|$)` with the flags `i` and `s`: the leftmost
 * head, then a lazy body that ends at the first stop phrase preceded by
 * whitespace, or at the end of the text. LIMIT is `LIMIT\s+(\d+)(?:\s+OFFSET\s+(\d+))?`.
 * JOIN clauses come from a loop: find the next JOIN keyword, require
 * `JOIN <word> ON` from there, then scan forward (quote- and depth-aware)
 * to the next JOIN, WHERE, GROUP BY, ORDER BY or LIMIT at depth 0.
 */
module Clauses {
  import opened Wrappers
  import opened Text
  import opened Scan
  import opened Patterns

  // ---------------------------------------------------------------------
  // Clause bodies found by pattern search

  /** `HEAD\s+` at `q`: where the clause body starts, when the head matches there. */
  function HeadEnd(s: string, q: nat, head: Phrase): (r: Option<nat>)
    requires q <= |s|
    ensures r.Some? ==> q < r.value <= |s|
  {
    match PhraseEnd(s, q, head)
    case None => None
    case Some(e) => if WsRun(s, e) > 0 then Some(e + WsRun(s, e)) else None
  }

  /** The positions where the head matches. */
  function HeadTable(s: string, head: Phrase): nat -> bool {
    (q: nat) => q <= |s| && HeadEnd(s, q, head).Some?
  }

  /** `\s+(?:STOP|...)` at `x`: a place where the lazy body may stop. */
  predicate StopAt(s: string, x: nat, stops: seq<Phrase>) {
    x <= |s| && WsRun(s, x) > 0 && AnyPhraseAt(s, x + WsRun(s, x), stops, false)
  }

  /** The positions where the body may stop. */
  function StopTable(s: string, stops: seq<Phrase>): nat -> bool {
    (x: nat) => StopAt(s, x, stops)
  }

  /**
   * `HEAD\s+(.*?)(?:\s+(?:STOP|...)|$)` with the flags `i` and `s`, its body
   * trimmed: from the leftmost head to the first stop after it, or to the end.
   */
  function ClauseBody(s: string, head: Phrase, stops: seq<Phrase>): Option<string> {
    var p := FirstFrom(HeadTable(s, head), 0, |s|);
    if p == |s| then None
    else
      match HeadEnd(s, p, head)
      case None => None
      case Some(start) => Some(Trim(s[start..FirstFrom(StopTable(s, stops), start, |s|)]))
  }

  /** The clause is present exactly when its head matches somewhere. */
  lemma ClauseBodyPresent(s: string, head: Phrase, stops: seq<Phrase>)
    ensures ClauseBody(s, head, stops).Some? <==> exists q: nat :: q < |s| && HeadEnd(s, q, head).Some?
  {
    var t := HeadTable(s, head);
    FirstFromIsFirst(t, 0, |s|);
    if q: nat :| q < |s| && HeadEnd(s, q, head).Some? {
      assert t(q);
      FirstFromAtMost(t, 0, |s|, q);
    }
  }

  /** The leftmost head: the head matches there, and nowhere before. */
  lemma FirstHead(s: string, head: Phrase)
    ensures var p := FirstFrom(HeadTable(s, head), 0, |s|);
      (p < |s| ==> HeadEnd(s, p, head).Some?) && forall q: nat :: q < p ==> HeadEnd(s, q, head).None?
  {
    var t := HeadTable(s, head);
    FirstFromIsFirst(t, 0, |s|);
    forall q: nat | q < FirstFrom(t, 0, |s|)
      ensures HeadEnd(s, q, head).None?
    {
      assert !t(q);
    }
  }

  /** The first stop at or after `start`: a stop, or the end of the text, with no stop before it. */
  lemma FirstStop(s: string, stops: seq<Phrase>, start: nat)
    requires start <= |s|
    ensures var e := FirstFrom(StopTable(s, stops), start, |s|);
      (e == |s| || StopAt(s, e, stops)) && forall x :: start <= x < e ==> !StopAt(s, x, stops)
  {
    var u := StopTable(s, stops);
    FirstFromIsFirst(u, start, |s|);
    forall x | start <= x < FirstFrom(u, start, |s|)
      ensures !StopAt(s, x, stops)
    {
      assert !u(x);
    }
  }

  /**
   * The lazy body: a present clause is the trimmed text from just after a
   * head (`HEAD` and its blanks) to `e`, where `e` is the end of the text or
   * a stop, and no stop lies in between; no head lies before that head.
   */
  lemma ClauseBodySpan(s: string, head: Phrase, stops: seq<Phrase>) returns (p: nat, start: nat, e: nat)
    requires ClauseBody(s, head, stops).Some?
    ensures p < start <= e <= |s| && HeadEnd(s, p, head) == Some(start)
    ensures forall q: nat :: q < p ==> HeadEnd(s, q, head).None?
    ensures ClauseBody(s, head, stops) == Some(Trim(s[start..e]))
    ensures e == |s| || StopAt(s, e, stops)
    ensures forall x :: start <= x < e ==> !StopAt(s, x, stops)
  {
    p := FirstFrom(HeadTable(s, head), 0, |s|);
    FirstHead(s, head);
    start := HeadEnd(s, p, head).value;
    e := FirstFrom(StopTable(s, stops), start, |s|);
    FirstStop(s, stops, start);
  }

  // ---------------------------------------------------------------------
  // LIMIT

  /** What `LIMIT\s+(\d+)(?:\s+OFFSET\s+(\d+))?` captures at a position, and where the match ends. */
  datatype LimitHit = LimitHit(limit: string, offset: Option<string>, end: nat)

  /** The LIMIT pattern matched at `p`. */
  function LimitAt(s: string, p: nat): (r: Option<LimitHit>)
    requires p <= |s|
    ensures r.Some? ==> p + 5 < r.value.end <= |s| && r.value.limit != [] && AllDigits(r.value.limit)
    ensures r.Some? && r.value.offset.Some? ==> r.value.offset.value != [] && AllDigits(r.value.offset.value)
  {
    if !KeywordAt(s, p, "LIMIT") then None
    else
      var d := p + 5 + WsRun(s, p + 5);
      var n := DigitRun(s, d);
      DigitRunDigits(s, d);
      if d == p + 5 || n == 0 then None
      else Some(OffsetPart(s, d + n, s[d..d + n]))
  }

  /** The optional `\s+OFFSET\s+(\d+)` after the LIMIT digits, which end at `b`. */
  function OffsetPart(s: string, b: nat, digits: string): (r: LimitHit)
    requires b <= |s|
    ensures r.limit == digits && b <= r.end <= |s|
    ensures r.offset.Some? ==> r.offset.value != [] && AllDigits(r.offset.value)
  {
    var o := b + WsRun(s, b);
    if o == b || !KeywordAt(s, o, "OFFSET") then LimitHit(digits, None, b)
    else
      var d := o + 6 + WsRun(s, o + 6);
      var m := DigitRun(s, d);
      DigitRunDigits(s, d);
      if d == o + 6 || m == 0 then LimitHit(digits, None, b)
      else LimitHit(digits, Some(s[d..d + m]), d + m)
  }

  /** The positions where the LIMIT pattern matches. */
  function LimitTable(s: string): nat -> bool {
    (p: nat) => p <= |s| && LimitAt(s, p).Some?
  }

  /** The leftmost match of the LIMIT pattern, if any. */
  function FirstLimit(s: string): Option<LimitHit> {
    var p := FirstFrom(LimitTable(s), 0, |s|);
    if p == |s| then None else LimitAt(s, p)
  }

  /** The text of the leftmost LIMIT match, trimmed. */
  function LimitClause(s: string): Option<string> {
    var p := FirstFrom(LimitTable(s), 0, |s|);
    if p == |s| then None
    else
      match LimitAt(s, p)
      case None => None
      case Some(h) => Some(Trim(s[p..h.end]))
  }

  // ---------------------------------------------------------------------
  // JOIN clauses

  /** `\b(?:LEFT|RIGHT|INNER|FULL)?\s*JOIN\b` at `q`, searched in `s[from..]`. */
  predicate JoinAt(s: string, from: nat, q: nat) {
    from <= q <= |s| && BoundaryAt(s, from, q) && PhraseAt(s, q, Join, true)
  }

  /** End of `\bJOIN\s+\w+\s+ON\b` matched at `r`, searched in `s[from..]`. */
  function OnEnd(s: string, from: nat, r: nat): (o: Option<nat>)
    requires from <= r <= |s|
    ensures o.Some? ==> r + 4 < o.value <= |s|
  {
    if !BoundaryAt(s, from, r) || !KeywordAt(s, r, "JOIN") then None
    else
      var t := r + 4 + WsRun(s, r + 4);
      var u := t + WordRun(s, t);
      var v := u + WsRun(s, u);
      if t == r + 4 || u == t || v == u || !KeywordAt(s, v, "ON") || !WordEndsAt(s, v + 2) then None
      else Some(v + 2)
  }

  /** The stops of the JOIN scan, each followed by `\b`. */
  const JoinScanStops: seq<Phrase> := [Join, Where, GroupBy, OrderBy, Limit]

  /** `^\s*` and then a JOIN, WHERE, GROUP BY, ORDER BY or LIMIT keyword, matched on `s[i..]`. */
  predicate JoinStopAt(s: string, i: nat) {
    i <= |s| && AnyPhraseAt(s, i + WsRun(s, i), JoinScanStops, true)
  }

  /**
   * The three pattern tests the JOIN loop makes: the JOIN keyword at `q` in
   * a search from `from`, the end of the ON pattern at `r` in a search from
   * `q`, and the end-of-clause test at `j`. The loop's specification below is
   * written for any tables; the parser's are `JoinPatterns(s)`.
   */
  datatype JoinTables = JoinTables(
    joinAt: (nat, nat) -> bool,
    onEnd: (nat, nat) -> Option<nat>,
    stopAt: nat -> bool)

  function JoinPatterns(s: string): JoinTables {
    JoinTables(
      (from: nat, q: nat) => JoinAt(s, from, q),
      (q: nat, r: nat) => if q <= r <= |s| then OnEnd(s, q, r) else None,
      (j: nat) => JoinStopAt(s, j))
  }

  /** Where the next JOIN keyword starts at or after `from`; `|s|` when there is none. */
  function NextJoin(s: string, t: JoinTables, from: nat): (q: nat)
    requires from <= |s|
    ensures from <= q <= |s|
  {
    FirstFrom((q: nat) => t.joinAt(from, q), from, |s|)
  }

  /** The end of an ON match at `r`, searched from `q`, when it lies past `r` and inside the text. */
  function OnMatch(s: string, t: JoinTables, q: nat, r: nat): (o: Option<nat>)
    ensures o.Some? ==> r < o.value <= |s|
  {
    match t.onEnd(q, r)
    case Some(o) => if r < o <= |s| then Some(o) else None
    case None => None
  }

  /** Where the leftmost ON match searched from `q` starts; `|s|` when there is none. */
  function NextOn(s: string, t: JoinTables, q: nat): (r: nat)
    requires q <= |s|
    ensures q <= r <= |s|
  {
    FirstFrom((r: nat) => OnMatch(s, t, q, r).Some?, q, |s|)
  }

  /** The positions where the JOIN clause scan from `lo` stops: a stop at depth 0 outside quotes. */
  function JoinStops(s: string, t: JoinTables, lo: nat): nat -> bool {
    (j: nat) => lo <= j <= |s| && TopLevel(s, lo, j) && t.stopAt(j)
  }

  /** Where the JOIN clause whose ON match ends at `lo` ends: the first stop at depth 0 outside quotes. */
  function JoinEnd(s: string, t: JoinTables, lo: nat): (e: nat)
    requires lo <= |s|
    ensures lo <= e <= |s|
  {
    FirstFrom(JoinStops(s, t, lo), lo, |s|)
  }

  /** A JOIN clause, kept when it is not blank. */
  function ClauseList(c: string): (r: seq<string>)
    ensures r != [] <==> c != []
    ensures r != [] ==> r == [c]
  {
    if c != [] then [c] else []
  }

  /** What one round of the JOIN loop finds: no JOIN keyword left, or the clauses it keeps and where the next round searches. */
  datatype JoinRoundResult = NoJoinLeft | Found(clauses: seq<string>, next: nat)

  /**
   * One round of the JOIN loop from `from`: a JOIN keyword without an ON
   * match after it is skipped, the search resuming one position further; one
   * with an ON match yields the trimmed text up to the end of the clause,
   * kept when not blank, and the search resumes there.
   */
  function JoinStep(s: string, t: JoinTables, from: nat): (r: JoinRoundResult)
    requires from <= |s|
    ensures r.Found? ==> from < r.next <= |s|
  {
    var q := NextJoin(s, t, from);
    if q == |s| then NoJoinLeft
    else
      var r := NextOn(s, t, q);
      if r == |s| then Found([], q + 1)
      else
        match OnMatch(s, t, q, r)
        case None => NoJoinLeft
        case Some(o) =>
          var e := JoinEnd(s, t, o);
          Found(ClauseList(Trim(s[q..e])), e)
  }

  /** The JOIN clauses that the loop finds from `from` on. */
  function JoinClausesWith(s: string, t: JoinTables, from: nat): seq<string>
    requires from <= |s|
    decreases |s| - from
  {
    match JoinStep(s, t, from)
    case NoJoinLeft => []
    case Found(cs, next) => cs + JoinClausesWith(s, t, next)
  }

  /** The JOIN clauses of a statement. */
  function JoinClauses(s: string): seq<string> {
    JoinClausesWith(s, JoinPatterns(s), 0)
  }

  /**
   * One step of the JOIN scan at `i`: the state moves by `Step`; a stop
   * starts with whitespace or a letter, so it leaves the state alone; and the
   * test the scan makes is the stop test at depth 0 outside quotes.
   */
  lemma JoinScanAt(s: string, lo: nat, i: nat, st: ScanState)
    requires lo <= i < |s| && st == StateAt(s, lo, i)
    ensures StateAt(s, lo, i + 1) == Step(st, s, i)
    ensures var next := Step(st, s, i);
      JoinStops(s, JoinPatterns(s), lo)(i)
      <==> next.quote.None? && s[i] != '(' && s[i] != ')' && next.depth == 0 && JoinStopAt(s, i)
  {
    StateAtStep(s, lo, i);
    JoinStopsAt(s, JoinPatterns(s), lo, i);
    JoinStopTable(s, i);
    assert JoinStops(s, JoinPatterns(s), lo)(i) == (st == Top && JoinStopAt(s, i));
    if JoinStopAt(s, i) {
      var a := i + WsRun(s, i);
      if a == i {
        AnyPhraseStart(s, a, JoinScanStops, true);
      }
      assert IsSpace(s[i]) || IsWordChar(s[i]);
      StepPlain(st, s, i);
      assert s[i] != '(' && s[i] != ')';
    }
  }

  /** The scan stops where the table's stop test holds at depth 0 outside quotes. */
  lemma JoinStopsAt(s: string, t: JoinTables, lo: nat, i: nat)
    requires lo <= i <= |s|
    ensures JoinStops(s, t, lo)(i) == (TopLevel(s, lo, i) && t.stopAt(i))
  {
  }

  /** The parser's stop test is the JOIN-scan stop pattern. */
  lemma JoinStopTable(s: string, i: nat)
    ensures JoinPatterns(s).stopAt(i) == JoinStopAt(s, i)
  {
  }

  /** The inner loop of the JOIN scan: from the end of `ON`, up to the next stop at depth 0 outside quotes. */
  method FindJoinEnd(sql: string, t: JoinTables, lo: nat) returns (joinEnd: nat)
    requires t == JoinPatterns(sql) && lo <= |sql|
    ensures joinEnd == JoinEnd(sql, t, lo)
  {
    joinEnd := lo;
    var st := Top;
    StateAtStart(sql, lo);
    while joinEnd < |sql|
      invariant lo <= joinEnd <= |sql|
      invariant st == StateAt(sql, lo, joinEnd)
      invariant JoinEnd(sql, t, lo) == FirstFrom(JoinStops(sql, t, lo), joinEnd, |sql|)
      decreases |sql| - joinEnd
    {
      var c := sql[joinEnd];
      var next := Step(st, sql, joinEnd);
      JoinScanAt(sql, lo, joinEnd, st);
      if next.quote.None? && c != '(' && c != ')' && next.depth == 0 && JoinStopAt(sql, joinEnd) {
        break;
      }
      st := next;
      joinEnd := joinEnd + 1;
    }
  }

  /** The leftmost ON match is a match. */
  lemma NextOnMatches(s: string, t: JoinTables, q: nat)
    requires q <= |s| && NextOn(s, t, q) < |s|
    ensures OnMatch(s, t, q, NextOn(s, t, q)).Some?
  {
    FirstFromIsFirst((r: nat) => OnMatch(s, t, q, r).Some?, q, |s|);
  }

  /** One round of the JOIN loop of `splitQueryIntoParts`, from `searchStart`. */
  method JoinRound(sql: string, t: JoinTables, searchStart: nat) returns (r: JoinRoundResult)
    requires t == JoinPatterns(sql) && searchStart <= |sql|
    ensures r == JoinStep(sql, t, searchStart)
  {
    var joinStart := NextJoin(sql, t, searchStart);
    if joinStart == |sql| {
      return NoJoinLeft;
    }
    var onStart := NextOn(sql, t, joinStart);
    if onStart == |sql| {
      return Found([], joinStart + 1);
    }
    NextOnMatches(sql, t, joinStart);
    var onEnd := OnMatch(sql, t, joinStart, onStart).value;
    var joinEnd := FindJoinEnd(sql, t, onEnd);
    var joinClause := Trim(sql[joinStart..joinEnd]);
    var found := [];
    if joinClause != [] {
      found := [joinClause];
    }
    return Found(found, joinEnd);
  }

  /**
   * The JOIN loop of `splitQueryIntoParts`. It ends because `searchStart`
   * moves forward every round: past the JOIN keyword when no ON follows it,
   * past the end of the clause otherwise.
   */
  method FindJoins(sql: string) returns (joins: seq<string>)
    ensures joins == JoinClauses(sql)
  {
    var t := JoinPatterns(sql);
    joins := [];
    var searchStart := 0;
    ghost var all := JoinClausesWith(sql, t, searchStart);
    while true
      invariant searchStart <= |sql|
      invariant joins + JoinClausesWith(sql, t, searchStart) == all
      decreases |sql| - searchStart
    {
      var round := JoinRound(sql, t, searchStart);
      if round.NoJoinLeft? {
        break;
      }
      joins := joins + round.clauses;
      searchStart := round.next;
    }
  }

  /** Every JOIN clause is trimmed and not blank. */
  lemma {:induction false} JoinClausesTrimmed(s: string, t: JoinTables, from: nat)
    requires from <= |s|
    ensures forall c :: c in JoinClausesWith(s, t, from) ==> c != [] && Trim(c) == c
    decreases |s| - from
  {
    var round := JoinStep(s, t, from);
    if round.Found? {
      JoinClausesTrimmed(s, t, round.next);
      var q := NextJoin(s, t, from);
      var r := NextOn(s, t, q);
      if r < |s| {
        var e := JoinEnd(s, t, OnMatch(s, t, q, r).value);
        TrimIdempotent(s[q..e]);
      }
    }
  }

  /** Without an ON match after any JOIN keyword, there are no JOIN clauses. */
  lemma {:induction false} NoOnNoJoins(s: string, t: JoinTables, from: nat)
    requires from <= |s|
    requires forall q, r :: from <= q <= r <= |s| ==> OnMatch(s, t, q, r).None?
    ensures JoinClausesWith(s, t, from) == []
    decreases |s| - from
  {
    var q := NextJoin(s, t, from);
    if q < |s| {
      if NextOn(s, t, q) < |s| {
        NextOnMatches(s, t, q);
        assert false;
      }
      NoOnNoJoins(s, t, q + 1);
    }
  }

  // ---------------------------------------------------------------------
  // The whole split

  /** The clauses of one statement; `joins` is empty when no JOIN clause was found. */
  datatype QueryParts = QueryParts(
    select: Option<string>,
    from: Option<string>,
    joins: seq<string>,
    where: Option<string>,
    groupBy: Option<string>,
    orderBy: Option<string>,
    limit: Option<string>)

  /** What `splitQueryIntoParts` returns. */
  function PartsOf(s: string): QueryParts {
    QueryParts(
      ClauseBody(s, Select, [From]),
      ClauseBody(s, From, [Join, Where, GroupBy, OrderBy, Limit]),
      JoinClauses(s),
      ClauseBody(s, Where, [GroupBy, OrderBy, Limit]),
      ClauseBody(s, GroupBy, [OrderBy, Limit]),
      ClauseBody(s, OrderBy, [Limit]),
      LimitClause(s))
  }

  /** `splitQueryIntoParts`: the pattern searches and the JOIN loop. */
  method SplitQueryIntoParts(sql: string) returns (parts: QueryParts)
    ensures parts == PartsOf(sql)
  {
    var joins := FindJoins(sql);
    parts := QueryParts(
      ClauseBody(sql, Select, [From]),
      ClauseBody(sql, From, [Join, Where, GroupBy, OrderBy, Limit]),
      joins,
      ClauseBody(sql, Where, [GroupBy, OrderBy, Limit]),
      ClauseBody(sql, GroupBy, [OrderBy, Limit]),
      ClauseBody(sql, OrderBy, [Limit]),
      LimitClause(sql));
  }
}
