/**
 * `parseJoin`: one JOIN clause, `[kind] JOIN table ON conditions`, read into
 * a Join record. The ON text is cut at `AND`/`OR` like a WHERE clause and
 * every piece that is not a comparison is dropped.
 */
module JoinParse {
  import opened Wrappers
  import opened Text
  import opened QueryModel
  import opened Patterns
  import opened Conditions

  /** The four kinds the pattern accepts before `JOIN`. */
  const JoinKinds: seq<string> := ["LEFT", "RIGHT", "INNER", "FULL"]

  /**
   * `\s+(.+)$` matched at `p`: where the captured text starts. The blanks are
   * greedy and give back one character only when `.+` would otherwise be
   * left empty, and at least one blank must remain.
   */
  function RestStart(t: string, p: nat): (r: Option<nat>)
    requires p <= |t|
    ensures r.Some? ==> p < r.value < |t| && OneLineFrom(t, r.value)
  {
    var c := p + WsRun(t, p);
    if c == p || !OneLineFrom(t, c) then None
    else if c < |t| then Some(c)
    else if c - 1 > p && !IsLineTerminator(t[c - 1]) then Some(c - 1)
    else None
  }

  /** What `^(LEFT|RIGHT|INNER|FULL)?\s*JOIN\s+(\w+)\s+ON\s+(.+)$` captures: the kind as written (empty when absent), the table and the ON text. */
  datatype JoinMatch = JoinMatch(kind: string, table: string, onText: string)

  /**
   * The JOIN pattern of `parseJoin`, case-insensitive: the optional kind and
   * `JOIN`, then the rest.
   */
  function MatchJoin(t: string): (r: Option<JoinMatch>)
    ensures r.Some? ==> r.value.kind == t[..KindLen(t, 0)] && r.value.table != [] && AllWordChars(r.value.table)
  {
    match KindJoinEnd(t, 0)
    case None => None
    case Some(j) => AfterJoin(t, KindLen(t, 0), j)
  }

  /** `\s+` after `JOIN`, which ends at `j`, then the table and the ON part; `k` is where the kind ends. */
  function AfterJoin(t: string, k: nat, j: nat): (r: Option<JoinMatch>)
    requires k <= j <= |t|
    ensures r.Some? ==> r.value.kind == t[..k] && r.value.table != [] && AllWordChars(r.value.table)
  {
    var b := j + WsRun(t, j);
    if b == j then None else TableOn(t, k, b)
  }

  /**
   * `(\w+)\s+ON\s+(.+)$` at `b`. The table is a whole run of word
   * characters, so `JOIN t alias ON ...` does not match: the word after the
   * table must be `ON`.
   */
  function TableOn(t: string, k: nat, b: nat): (r: Option<JoinMatch>)
    requires k <= b <= |t|
    ensures r.Some? ==> r.value.kind == t[..k] && r.value.table != [] && AllWordChars(r.value.table)
    ensures r.Some? ==>
      var e := b + WordRun(t, b);
      r.value.table == t[b..e] && WsRun(t, e) > 0 && KeywordAt(t, e + WsRun(t, e), "ON")
  {
    var w := WordRun(t, b);
    WordRunChars(t, b);
    var d := b + w + WsRun(t, b + w);
    if w == 0 || d == b + w || !KeywordAt(t, d, "ON") then None
    else
      match RestStart(t, d + 2)
      case None => None
      case Some(o) => Some(JoinMatch(t[..k], t[b..b + w], t[o..]))
  }

  /** The comparisons of an ON text, in order; the pieces that do not match the comparison pattern are dropped. */
  function JoinConds(segs: seq<Segment>): (r: seq<JoinCond>)
    ensures |r| <= |segs|
  {
    if segs == [] then []
    else
      match JoinCondOf(segs[0].condition)
      case None => JoinConds(segs[1..])
      case Some(c) => [c] + JoinConds(segs[1..])
  }

  /** `parseJoin`: the kind upper-cased (`INNER` when absent), the table, and the comparisons of the ON text. */
  function ParseJoin(joinText: string): (r: Option<Join>)
    ensures r.Some? <==> MatchJoin(joinText).Some?
  {
    match MatchJoin(joinText)
    case None => None
    case Some(m) =>
      var kind := if m.kind == [] then "INNER" else Upper(m.kind);
      Some(Join.Join(kind, m.table, JoinConds(SplitByLogicalOperators(m.onText))))
  }

  // ---------------------------------------------------------------------
  // What a parsed JOIN looks like

  /** A kind that matches reads, upper-cased, as one of the four kinds. */
  lemma KindName(t: string)
    requires KindLen(t, 0) > 0
    ensures Upper(t[..KindLen(t, 0)]) in JoinKinds
  {
    var n := KindLen(t, 0);
    KeywordAtUpper(t, 0, t[..n]);
    if KeywordAt(t, 0, "LEFT") {
      KeywordAtUpper(t, 0, "LEFT");
    } else if KeywordAt(t, 0, "RIGHT") {
      KeywordAtUpper(t, 0, "RIGHT");
    } else if KeywordAt(t, 0, "INNER") {
      KeywordAtUpper(t, 0, "INNER");
    } else {
      KeywordAtUpper(t, 0, "FULL");
    }
  }

  /** Each comparison kept is one an ON piece yields: both sides non-empty and trimmed, the operator one of the six. */
  lemma {:induction false} JoinCondsShape(segs: seq<Segment>)
    ensures forall i :: 0 <= i < |JoinConds(segs)| ==>
      var c := JoinConds(segs)[i];
      c.left != [] && Trim(c.left) == c.left && c.right != [] && Trim(c.right) == c.right && c.op in JoinOpNames
  {
    if segs != [] {
      JoinCondsShape(segs[1..]);
      if JoinCondOf(segs[0].condition).Some? {
        JoinCondShape(segs[0].condition);
      }
    }
  }

  /** Pieces that are all comparisons are all kept, in order. */
  lemma {:induction false} JoinCondsAllKept(segs: seq<Segment>)
    requires forall i :: 0 <= i < |segs| ==> JoinCondOf(segs[i].condition).Some?
    ensures |JoinConds(segs)| == |segs|
    ensures forall i :: 0 <= i < |segs| ==> JoinConds(segs)[i] == JoinCondOf(segs[i].condition).value
  {
    if segs != [] {
      assert JoinCondOf(segs[0].condition).Some?;
      JoinCondsAllKept(segs[1..]);
      assert forall i :: 1 <= i < |segs| ==> segs[1..][i - 1] == segs[i];
    }
  }

  /**
   * A parsed JOIN has one of the four kinds, a table made of word
   * characters and well-formed comparisons.
   */
  lemma ParseJoinShape(joinText: string)
    requires ParseJoin(joinText).Some?
    ensures var j := ParseJoin(joinText).value;
      j.kind in JoinKinds && j.rightTable != [] && AllWordChars(j.rightTable)
      && forall i :: 0 <= i < |j.on| ==>
           j.on[i].left != [] && j.on[i].right != [] && j.on[i].op in JoinOpNames
  {
    var m := MatchJoin(joinText).value;
    if m.kind != [] {
      KindName(joinText);
    }
    JoinCondsShape(SplitByLogicalOperators(m.onText));
  }

  // ---------------------------------------------------------------------
  // Reading back the JOIN clauses the generator writes

  /** After `JOIN`, which ends at `b - 1`, a text of which only the positions of its pieces are known. */
  lemma AfterJoinAt(t: string, k: nat, b: nat, w: nat, o: nat)
    requires k + 5 < b && b + w + 4 < |t| && t[b - 1] == ' ' && !IsSpace(t[b])
    requires WordRun(t, b) == w && w > 0
    requires t[b + w] == ' ' && KeywordAt(t, b + w + 1, "ON") && t[b + w + 3] == ' '
    requires o == b + w + 4 && !IsSpace(t[o]) && OneLineFrom(t, o)
    ensures AfterJoin(t, k, b - 1) == Some(JoinMatch(t[..k], t[b..b + w], t[o..]))
  {
    AfterJoinIs(t, k, b - 1);
    TableOnAt(t, k, b, w, o);
  }

  /** Once the kind and `JOIN` are found, the matcher goes on after `JOIN`. */
  lemma MatchJoinIs(t: string, k: nat, j: nat)
    requires k <= j && KindLen(t, 0) == k && KindJoinEnd(t, 0) == Some(j)
    ensures MatchJoin(t) == AfterJoin(t, k, j)
  {
  }

  /** One blank after `JOIN`, then the table. */
  lemma AfterJoinIs(t: string, k: nat, j: nat)
    requires k <= j && j + 1 < |t| && t[j] == ' ' && !IsSpace(t[j + 1])
    ensures AfterJoin(t, k, j) == TableOn(t, k, j + 1)
  {
    WsRunIs(t, j, 1);
  }

  /** `TableOn` where the table, `ON` and the ON text are laid out with single blanks. */
  lemma TableOnAt(t: string, k: nat, b: nat, w: nat, o: nat)
    requires k <= b && b + w + 4 < |t| && WordRun(t, b) == w && w > 0
    requires t[b + w] == ' ' && KeywordAt(t, b + w + 1, "ON") && t[b + w + 3] == ' '
    requires o == b + w + 4 && !IsSpace(t[o]) && OneLineFrom(t, o)
    ensures TableOn(t, k, b) == Some(JoinMatch(t[..k], t[b..b + w], t[o..]))
  {
    WsRunIs(t, b + w, 1);
    WsRunIs(t, b + w + 3, 1);
  }

  /** Where the words of `kind JOIN table ON on` sit. */
  lemma HeadLayout(t: string, kind: string, table: string, on: string)
    requires t == kind + " JOIN " + table + " ON " + on
    ensures |kind| + 6 + |table| + 4 <= |t|
    ensures t[..|kind|] == kind && t[|kind|] == ' ' && t[|kind| + 1..|kind| + 5] == "JOIN" && t[|kind| + 5] == ' '
  {
    assert t[..|kind|] == kind;
    assert t[|kind| + 1..|kind| + 5] == "JOIN";
  }

  /** Where the table, `ON` and the ON text of `kind JOIN table ON on` sit. */
  lemma TailLayout(t: string, kind: string, table: string, on: string)
    requires t == kind + " JOIN " + table + " ON " + on
    ensures |kind| + 6 + |table| + 4 <= |t|
    ensures t[|kind| + 6..|kind| + 6 + |table|] == table && t[|kind| + 6 + |table|] == ' '
    ensures t[|kind| + 6 + |table| + 1..|kind| + 6 + |table| + 3] == "ON" && t[|kind| + 6 + |table| + 3] == ' '
    ensures t[|kind| + 6 + |table| + 4..] == on
  {
    assert t[|kind| + 6..|kind| + 6 + |table|] == table;
    assert t[|kind| + 6 + |table| + 1..|kind| + 6 + |table| + 3] == "ON";
    assert t[|kind| + 6 + |table| + 4..] == on;
  }

  /** A kind followed by ` JOIN ` is found as that kind, and the JOIN keyword ends after it. */
  lemma KindJoinAt(t: string, kind: string)
    requires kind in JoinKinds && |kind| + 6 <= |t| && t[..|kind|] == kind
    requires t[|kind|] == ' ' && t[|kind| + 1..|kind| + 5] == "JOIN" && t[|kind| + 5] == ' '
    ensures KindLen(t, 0) == |kind| && KindJoinEnd(t, 0) == Some(|kind| + 5)
  {
    KindAtStart(t, kind);
    WsRunIs(t, |kind|, 1);
    KeywordAtUpper(t, |kind| + 1, "JOIN");
  }

  /** `ON` written in capitals matches the keyword. */
  lemma OnAt(t: string, p: nat)
    requires p + 2 <= |t| && t[p..p + 2] == "ON"
    ensures KeywordAt(t, p, "ON")
  {
    KeywordAtUpper(t, p, "ON");
  }

  /** A kind written at the start of a text is found as that kind. */
  lemma KindAtStart(t: string, kind: string)
    requires kind in JoinKinds && |kind| < |t| && t[..|kind|] == kind
    ensures KindLen(t, 0) == |kind|
  {
    KeywordAtUpper(t, 0, kind);
    assert Upper(kind) == kind by {
      UpperChars(kind);
    }
    if kind != "LEFT" {
      assert t[0] == kind[0];
      KeywordNot(t, "LEFT");
      if kind != "RIGHT" {
        KeywordNot(t, "RIGHT");
        if kind != "INNER" {
          KeywordNot(t, "INNER");
        }
      }
    }
  }

  /** A keyword whose first letter differs from the text's first character does not match at the start. */
  lemma KeywordNot(t: string, kw: string)
    requires kw != [] && t != [] && UpperChar(t[0]) != kw[0]
    ensures !KeywordAt(t, 0, kw)
  {
  }

  /** The table is the whole run of word characters written before the blank. */
  lemma TableRun(t: string, b: nat, table: string)
    requires table != [] && AllWordChars(table) && b + |table| < |t| && t[b..b + |table|] == table
    requires t[b + |table|] == ' '
    ensures WordRun(t, b) == |table| && !IsSpace(t[b])
  {
    assert t[b] == table[0];
    forall x | b <= x < b + |table|
      ensures IsWordChar(t[x])
    {
      assert t[x] == table[x - b];
    }
    WordRunFrom(t, b, b + |table|);
  }

  /** A one-line ON text that starts with a non-blank is captured whole. */
  lemma OnTail(t: string, o: nat, on: string)
    requires o <= |t| && t[o..] == on && on != [] && !IsSpace(on[0]) && NoLineTerminator(on)
    ensures o < |t| && !IsSpace(t[o]) && OneLineFrom(t, o)
  {
    assert t[o] == on[0];
    forall x | o <= x < |t|
      ensures !IsLineTerminator(t[x])
    {
      assert t[x] == on[x - o];
    }
  }

  /**
   * `kind JOIN table ON on`, as the generator writes a JOIN with ON
   * comparisons, reads back as the same kind and table, with the
   * comparisons of `on`.
   */
  lemma ParseWrittenJoin(kind: string, table: string, on: string)
    requires kind in JoinKinds && table != [] && AllWordChars(table)
    requires on != [] && !IsSpace(on[0]) && NoLineTerminator(on)
    ensures ParseJoin(kind + " JOIN " + table + " ON " + on)
      == Some(Join.Join(kind, table, JoinConds(SplitByLogicalOperators(on))))
  {
    var t := kind + " JOIN " + table + " ON " + on;
    HeadLayout(t, kind, table, on);
    TailLayout(t, kind, table, on);
    ReadLaidOutJoin(t, kind, table, on);
  }

  /** `ParseWrittenJoin` on a text of which only the layout is known. */
  lemma ReadLaidOutJoin(t: string, kind: string, table: string, on: string)
    requires kind in JoinKinds && table != [] && AllWordChars(table)
    requires on != [] && !IsSpace(on[0]) && NoLineTerminator(on)
    requires |kind| + 6 + |table| + 4 <= |t|
    requires t[..|kind|] == kind && t[|kind|] == ' ' && t[|kind| + 1..|kind| + 5] == "JOIN" && t[|kind| + 5] == ' '
    requires t[|kind| + 6..|kind| + 6 + |table|] == table && t[|kind| + 6 + |table|] == ' '
    requires t[|kind| + 6 + |table| + 1..|kind| + 6 + |table| + 3] == "ON" && t[|kind| + 6 + |table| + 3] == ' '
    requires t[|kind| + 6 + |table| + 4..] == on
    ensures ParseJoin(t) == Some(Join.Join(kind, table, JoinConds(SplitByLogicalOperators(on))))
  {
    KindJoinAt(t, kind);
    TableRun(t, |kind| + 6, table);
    OnAt(t, |kind| + 6 + |table| + 1);
    OnTail(t, |kind| + 6 + |table| + 4, on);
    AfterJoinAt(t, |kind|, |kind| + 6, |table|, |kind| + 6 + |table| + 4);
    MatchJoinIs(t, |kind|, |kind| + 5);
    KindUpper(kind);
  }

  /**
   * An alias after the table breaks the match: the table must be followed
   * by `ON`, so `kind JOIN table alias ON on` is not read as a JOIN at all
   * unless the alias is itself the word `ON`.
   */
  lemma JoinAliasBreaks(kind: string, table: string, alias: string, on: string)
    requires kind in JoinKinds && table != [] && AllWordChars(table)
    requires alias != [] && AllWordChars(alias) && Upper(alias) != "ON"
    ensures MatchJoin(kind + " JOIN " + table + " " + alias + " ON " + on).None?
    ensures ParseJoin(kind + " JOIN " + table + " " + alias + " ON " + on).None?
  {
    var t := kind + " JOIN " + table + " " + alias + " ON " + on;
    AliasLayout(t, kind, table, alias, on);
    NotOnSpelled(alias);
    AliasLaidOut(t, kind, table, alias);
  }

  /** A word that does not upper-case to `ON` differs from it in length or in one of its two letters. */
  lemma NotOnSpelled(alias: string)
    requires Upper(alias) != "ON"
    ensures NotOn(alias)
  {
    if |alias| == 2 {
      UpperChars(alias);
      assert Upper(alias) == [UpperChar(alias[0]), UpperChar(alias[1])];
    }
  }

  /** `alias`, upper-cased, is not `ON`, stated letter by letter. */
  predicate NotOn(alias: string) {
    |alias| != 2 || UpperChar(alias[0]) != 'O' || UpperChar(alias[1]) != 'N'
  }

  /** `JoinAliasBreaks` on a text of which only the layout is known. */
  lemma AliasLaidOut(t: string, kind: string, table: string, alias: string)
    requires kind in JoinKinds && table != [] && AllWordChars(table)
    requires alias != [] && AllWordChars(alias) && NotOn(alias)
    requires |kind| + 6 + |table| + 1 + |alias| < |t|
    requires t[..|kind|] == kind && t[|kind|] == ' ' && t[|kind| + 1..|kind| + 5] == "JOIN" && t[|kind| + 5] == ' '
    requires t[|kind| + 6..|kind| + 6 + |table|] == table && t[|kind| + 6 + |table|] == ' '
    requires t[|kind| + 6 + |table| + 1..|kind| + 6 + |table| + 1 + |alias|] == alias
    requires t[|kind| + 6 + |table| + 1 + |alias|] == ' '
    ensures MatchJoin(t).None?
  {
    KindJoinAt(t, kind);
    TableRun(t, |kind| + 6, table);
    AliasAfterJoin(t, |kind|, |kind| + 6, |table|, alias);
    MatchJoinIs(t, |kind|, |kind| + 5);
  }

  /** After `JOIN` and a blank, a table, a blank and a word other than `ON` do not match. */
  lemma AliasAfterJoin(t: string, k: nat, b: nat, w: nat, alias: string)
    requires k + 5 < b && b + w + 1 + |alias| < |t| && t[b - 1] == ' ' && !IsSpace(t[b])
    requires w > 0 && WordRun(t, b) == w && t[b + w] == ' '
    requires alias != [] && AllWordChars(alias) && NotOn(alias)
    requires t[b + w + 1..b + w + 1 + |alias|] == alias && t[b + w + 1 + |alias|] == ' '
    ensures AfterJoin(t, k, b - 1).None?
  {
    AfterJoinIs(t, k, b - 1);
    AliasAfterTable(t, k, b, w, alias);
  }

  /** `TableOn` fails when the table and a blank are followed by a word other than `ON` and a blank. */
  lemma AliasAfterTable(t: string, k: nat, b: nat, w: nat, alias: string)
    requires k <= b && b + w + 1 + |alias| < |t| && w > 0 && WordRun(t, b) == w && t[b + w] == ' '
    requires alias != [] && AllWordChars(alias) && NotOn(alias)
    requires t[b + w + 1..b + w + 1 + |alias|] == alias && t[b + w + 1 + |alias|] == ' '
    ensures TableOn(t, k, b).None?
  {
    var d := b + w + 1;
    assert t[d] == alias[0];
    AliasNotOn(t, d, alias);
    TableOnAlias(t, k, b, w);
  }

  /** `TableOn` fails when a word other than `ON` follows the table and its blank. */
  lemma TableOnAlias(t: string, k: nat, b: nat, w: nat)
    requires k <= b && b + w + 3 <= |t| && w > 0 && WordRun(t, b) == w && t[b + w] == ' '
    requires !IsSpace(t[b + w + 1])
    requires !KeywordAt(t, b + w + 1, "ON") || WsRun(t, b + w + 3) == 0
    ensures TableOn(t, k, b).None?
  {
    WsRunIs(t, b + w, 1);
  }

  /** A word other than `ON` at `d` is not the keyword followed by blanks. */
  lemma AliasNotOn(t: string, d: nat, alias: string)
    requires alias != [] && AllWordChars(alias) && NotOn(alias)
    requires d + |alias| < |t| && t[d..d + |alias|] == alias && t[d + |alias|] == ' '
    ensures !KeywordAt(t, d, "ON") || WsRun(t, d + 2) == 0
  {
    if |alias| == 1 {
      assert t[d + 1] == ' ';
      ShortNotOn(t, d);
    } else if |alias| == 2 {
      assert t[d] == alias[0] && t[d + 1] == alias[1];
    } else {
      assert t[d + 2] == alias[2];
      WsRunIs(t, d + 2, 0);
    }
  }

  /** A blank in second place is not `ON`. */
  lemma ShortNotOn(t: string, d: nat)
    requires d + 1 < |t| && t[d + 1] == ' '
    ensures !KeywordAt(t, d, "ON")
  {
  }

  /** Where the words of `kind JOIN table alias ON on` sit. */
  lemma AliasLayout(t: string, kind: string, table: string, alias: string, on: string)
    requires t == kind + " JOIN " + table + " " + alias + " ON " + on && alias != []
    ensures |kind| + 6 + |table| + 1 + |alias| < |t|
    ensures t[..|kind|] == kind && t[|kind|] == ' ' && t[|kind| + 1..|kind| + 5] == "JOIN" && t[|kind| + 5] == ' '
    ensures t[|kind| + 6..|kind| + 6 + |table|] == table && t[|kind| + 6 + |table|] == ' '
    ensures t[|kind| + 6 + |table| + 1..|kind| + 6 + |table| + 1 + |alias|] == alias
    ensures t[|kind| + 6 + |table| + 1 + |alias|] == ' '
  {
    var b := |kind| + 6;
    assert t == kind + " JOIN " + (table + " " + alias) + " ON " + on;
    HeadLayout(t, kind, table + " " + alias, on);
    TailLayout(t, kind, table + " " + alias, on);
    assert t[b..b + |table|] == (table + " " + alias)[..|table|];
    assert t[b + |table| + 1..b + |table| + 1 + |alias|] == (table + " " + alias)[|table| + 1..];
  }

  /** The kinds are written in capitals. */
  lemma KindUpper(kind: string)
    requires kind in JoinKinds
    ensures kind != [] && Upper(kind) == kind
  {
    UpperOfUpper(kind);
  }
}
