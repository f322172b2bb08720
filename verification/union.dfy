/**
 * Splitting a statement into the SELECTs of a UNION chain (`splitByUnion`).
 *
 * A boundary is a position at depth 0 outside quotes where
 * `/^\s*UNION(\s+ALL)?\s+/i` matches the rest of the text. The text before the
 * first boundary is the first part; after each boundary comes the text up to
 * the next boundary, flagged with whether that boundary said `UNION ALL`.
 */
module UnionSplit {
  import opened Wrappers
  import opened Text
  import opened Scan

  /** A match of the UNION pattern: how many characters it covers, and whether it has `ALL`. */
  datatype UnionHit = UnionHit(len: nat, isAll: bool)

  /** `/^\s*UNION(\s+ALL)?\s+/i` matched against `s[j..]`. */
  function UnionMatch(s: string, j: nat): (r: Option<UnionHit>)
    requires j <= |s|
    ensures r.Some? ==> 6 <= r.value.len && j + r.value.len <= |s|
  {
    var a := j + WsRun(s, j);
    if KeywordAt(s, a, "UNION") then AfterUnion(s, j, a + 5) else None
  }

  /** The part of the UNION pattern after the word `UNION`, which ends at `b`; the match began at `j`. */
  function AfterUnion(s: string, j: nat, b: nat): (r: Option<UnionHit>)
    requires j + 5 <= b <= |s|
    ensures r.Some? ==> b < j + r.value.len <= |s|
  {
    var w := WsRun(s, b);
    if w == 0 then None
    else
      var c := b + w;
      if KeywordAt(s, c, "ALL") && WsRun(s, c + 3) > 0 then Some(UnionHit(c + 3 + WsRun(s, c + 3) - j, true))
      else Some(UnionHit(c - j, false))
  }

  /** Every character of `s[lo..hi]` is whitespace or a word character. */
  predicate Plain(s: string, lo: nat, hi: nat)
    requires lo <= hi <= |s|
  {
    forall x :: lo <= x < hi ==> IsSpace(s[x]) || IsWordChar(s[x])
  }

  lemma PlainJoin(s: string, lo: nat, mid: nat, hi: nat)
    requires lo <= mid <= hi <= |s| && Plain(s, lo, mid) && Plain(s, mid, hi)
    ensures Plain(s, lo, hi)
  {
  }

  /** Whitespace after `i`, then a keyword of capital letters, is plain text. */
  lemma WsKeywordPlain(s: string, i: nat, kw: string)
    requires i <= |s| && KeywordAt(s, i + WsRun(s, i), kw)
    requires forall m :: 0 <= m < |kw| ==> 'A' <= kw[m] <= 'Z'
    ensures Plain(s, i, i + WsRun(s, i) + |kw|)
  {
    WsRunSpaces(s, i);
    KeywordLetters(s, i + WsRun(s, i), kw);
  }

  /** The text a UNION match covers is whitespace and letters: it does not move the scan state. */
  lemma UnionMatchPlain(s: string, j: nat)
    requires j <= |s| && UnionMatch(s, j).Some?
    ensures Plain(s, j, j + UnionMatch(s, j).value.len)
  {
    var b := j + WsRun(s, j) + 5;
    WsKeywordPlain(s, j, "UNION");
    AfterUnionPlain(s, j, b);
    PlainJoin(s, j, b, j + UnionMatch(s, j).value.len);
  }

  lemma AfterUnionPlain(s: string, j: nat, b: nat)
    requires j + 5 <= b <= |s| && AfterUnion(s, j, b).Some?
    ensures Plain(s, b, j + AfterUnion(s, j, b).value.len)
  {
    var c := b + WsRun(s, b);
    WsRunSpaces(s, b);
    if KeywordAt(s, c, "ALL") && WsRun(s, c + 3) > 0 {
      var e := c + 3 + WsRun(s, c + 3);
      assert AfterUnion(s, j, b) == Some(UnionHit(e - j, true));
      WsKeywordPlain(s, b, "ALL");
      WsRunSpaces(s, c + 3);
      assert Plain(s, c + 3, e);
      PlainJoin(s, b, c + 3, e);
    } else {
      assert AfterUnion(s, j, b) == Some(UnionHit(c - j, false));
      assert Plain(s, b, c);
    }
  }

  /**
   * One step of the outer scan at `i`: the state moves by `Step`; a UNION
   * match starts with a plain character, so it leaves the state alone; and
   * the test the scan makes on the new state is the boundary test.
   */
  lemma ScanAt(text: string, i: nat, st: ScanState)
    requires i < |text| && st == StateAt(text, 0, i)
    ensures StateAt(text, 0, i + 1) == Step(st, text, i)
    ensures UnionMatch(text, i).Some? ==> Step(st, text, i) == st
    ensures var next := Step(st, text, i);
      IsBoundary(text, Hits(text), i)
      <==> next.quote.None? && text[i] != '(' && text[i] != ')' && next.depth == 0 && UnionMatch(text, i).Some?
  {
    StateAtStep(text, 0, i);
    HitsAt(text, i);
    if UnionMatch(text, i).Some? {
      UnionMatchPlain(text, i);
      assert IsSpace(text[i]) || IsWordChar(text[i]);
      StepPlain(st, text, i);
    }
  }

  /** The UNION pattern tried at every position of `s`. */
  function Hits(s: string): nat -> Option<UnionHit> {
    (j: nat) => if j <= |s| then UnionMatch(s, j) else None
  }

  /**
   * `h` matches at `j`, inside the text and covering at least one character.
   * The spec below is written for any table of matches `h`; the parser's is `Hits(s)`.
   */
  predicate HitAt(s: string, h: nat -> Option<UnionHit>, j: nat) {
    j < |s| && h(j).Some? && 0 < h(j).value.len && j + h(j).value.len <= |s|
  }

  /** With the parser's table, a hit is exactly a match of the UNION pattern. */
  lemma HitsAt(s: string, j: nat)
    requires j < |s|
    ensures HitAt(s, Hits(s), j) <==> UnionMatch(s, j).Some?
    ensures HitAt(s, Hits(s), j) ==> Hits(s)(j) == UnionMatch(s, j)
  {
  }

  /** A boundary: the UNION pattern matches at depth 0 outside quotes. */
  predicate IsBoundary(s: string, h: nat -> Option<UnionHit>, j: nat)
    requires j <= |s|
  {
    TopLevel(s, 0, j) && HitAt(s, h, j)
  }

  /** The first boundary at or after `from`, or `|s|` when there is none. */
  function NextBoundary(s: string, h: nat -> Option<UnionHit>, from: nat): (r: nat)
    requires from <= |s|
    ensures from <= r <= |s|
    decreases |s| - from
  {
    if from == |s| then |s| else if IsBoundary(s, h, from) then from else NextBoundary(s, h, from + 1)
  }

  /** `NextBoundary` finds a boundary, unless it reaches the end, and there is none before it. */
  lemma {:induction false} NextBoundaryIsFirst(s: string, h: nat -> Option<UnionHit>, from: nat)
    requires from <= |s|
    ensures NextBoundary(s, h, from) < |s| ==> IsBoundary(s, h, NextBoundary(s, h, from))
    ensures forall j :: from <= j < NextBoundary(s, h, from) ==> !IsBoundary(s, h, j)
    decreases |s| - from
  {
    if from < |s| && !IsBoundary(s, h, from) {
      NextBoundaryIsFirst(s, h, from + 1);
    }
  }

  /** One piece of the chain: its trimmed text and whether `UNION ALL` came before it. */
  datatype UnionPart = UnionPart(query: string, isUnionAll: bool)

  /**
   * What `splitByUnion` returns. The text before the first boundary is kept
   * even when blank (the source then pushes an empty part so that the first
   * part is never one that follows a UNION); later blank pieces are dropped.
   */
  function UnionParts(s: string): seq<UnionPart> {
    PartsWith(s, Hits(s))
  }

  function PartsWith(s: string, h: nat -> Option<UnionHit>): seq<UnionPart> {
    var j := NextBoundary(s, h, 0);
    if j == |s| then (if Trim(s) != [] then [UnionPart(Trim(s), false)] else [])
    else [UnionPart(Trim(s[..j]), false)] + PartsFrom(s, h, j)
  }

  /** The parts that follow the boundary at `i`; none when `i` is the end of the text. */
  function PartsFrom(s: string, h: nat -> Option<UnionHit>, i: nat): seq<UnionPart>
    requires i <= |s|
    decreases |s| - i
  {
    if HitAt(s, h, i) then
      var m := h(i).value;
      var k := i + m.len;
      var n := NextBoundary(s, h, k);
      PieceList(Trim(s[k..n]), m.isAll) + PartsFrom(s, h, n)
    else []
  }

  /** The part for a trimmed piece, or nothing when the piece is blank. */
  function PieceList(piece: string, isAll: bool): (r: seq<UnionPart>)
    ensures |r| <= 1 && (r != [] <==> piece != [])
    ensures r != [] ==> r[0] == UnionPart(piece, isAll)
  {
    if piece != [] then [UnionPart(piece, isAll)] else []
  }

  /** The first boundary splits off the first part, blank or not. */
  lemma FirstBoundary(s: string, h: nat -> Option<UnionHit>, j: nat)
    requires j == NextBoundary(s, h, 0) < |s|
    ensures PartsWith(s, h) == [UnionPart(Trim(s[..j]), false)] + PartsFrom(s, h, j)
  {
  }

  /** Reading from one boundary to the next yields one piece (or none, when blank). */
  lemma BoundaryStep(s: string, h: nat -> Option<UnionHit>, j: nat, k: nat, n: nat)
    requires HitAt(s, h, j) && k == j + h(j).value.len && n == NextBoundary(s, h, k)
    ensures PartsFrom(s, h, j) == PieceList(Trim(s[k..n]), h(j).value.isAll) + PartsFrom(s, h, n)
  {
  }

  /** Appending the piece after a boundary keeps the parts found so far a prefix of the result. */
  lemma PiecePreserves(s: string, h: nat -> Option<UnionHit>, j: nat, k: nat, n: nat, mid: seq<UnionPart>)
    requires HitAt(s, h, j) && k == j + h(j).value.len && n == NextBoundary(s, h, k)
    requires mid + PartsFrom(s, h, j) == PartsWith(s, h)
    ensures (mid + PieceList(Trim(s[k..n]), h(j).value.isAll)) + PartsFrom(s, h, n) == PartsWith(s, h)
  {
    BoundaryStep(s, h, j, k, n);
  }

  /** The parts after a boundary are trimmed and never blank. */
  lemma {:induction false} PartsFromShape(s: string, h: nat -> Option<UnionHit>, i: nat)
    requires i <= |s|
    ensures forall p :: p in PartsFrom(s, h, i) ==> p.query != [] && Trim(p.query) == p.query
    decreases |s| - i
  {
    if HitAt(s, h, i) {
      var k := i + h(i).value.len;
      var n := NextBoundary(s, h, k);
      PartsFromShape(s, h, n);
      TrimIdempotent(s[k..n]);
    }
  }

  /**
   * Every part is trimmed; only the first may be blank, and the first never
   * follows a UNION, so it is never flagged `UNION ALL`.
   */
  lemma UnionPartsShape(s: string)
    ensures var ps := UnionParts(s);
      (ps != [] ==> !ps[0].isUnionAll)
      && (forall k :: 0 <= k < |ps| ==> Trim(ps[k].query) == ps[k].query)
      && (forall k :: 1 <= k < |ps| ==> ps[k].query != [])
  {
    var h := Hits(s);
    var j := NextBoundary(s, h, 0);
    TrimIdempotent(s);
    if j < |s| {
      TrimIdempotent(s[..j]);
      PartsFromShape(s, h, j);
      var ps := UnionParts(s);
      assert ps == [UnionPart(Trim(s[..j]), false)] + PartsFrom(s, h, j);
      forall k | 1 <= k < |ps|
        ensures ps[k].query != [] && Trim(ps[k].query) == ps[k].query
      {
        assert ps[k] in PartsFrom(s, h, j);
      }
    }
  }

  /** The split is empty exactly when the text is blank. */
  lemma UnionPartsBlank(s: string)
    ensures UnionParts(s) == [] <==> Trim(s) == []
  {
    var h := Hits(s);
    var j := NextBoundary(s, h, 0);
    if j < |s| && Trim(s) == [] {
      NextBoundaryIsFirst(s, h, 0);
      HitsAt(s, j);
      var a := j + WsRun(s, j);
      KeywordChar(s, a, "UNION", 0);
      var t := TrimSlice(s);
      assert false;
    }
  }

  /** A statement that starts with UNION gets a blank first part, not flagged `UNION ALL`. */
  lemma LeadingUnion(s: string)
    requires |s| > 0 && UnionMatch(s, 0).Some?
    ensures UnionParts(s) != [] && UnionParts(s)[0] == UnionPart("", false)
  {
    HitsAt(s, 0);
    StateAtStart(s, 0);
    assert IsBoundary(s, Hits(s), 0);
    assert s[..0] == [];
  }

  /** A statement where the UNION pattern matches nowhere is a single part, the trimmed text. */
  lemma NoUnionSinglePart(s: string)
    requires forall j :: 0 <= j < |s| ==> UnionMatch(s, j).None?
    ensures UnionParts(s) == PieceList(Trim(s), false)
  {
    NextBoundaryIsFirst(s, Hits(s), 0);
    if NextBoundary(s, Hits(s), 0) < |s| {
      HitsAt(s, NextBoundary(s, Hits(s), 0));
    }
  }

  /**
   * The inner loop of `splitByUnion`: reads from `k` up to the next boundary,
   * or to the end, keeping the scan state.
   */
  method ReadPiece(text: string, k: nat, st0: ScanState) returns (piece: string, i: nat, st: ScanState)
    requires k <= |text| && st0 == StateAt(text, 0, k)
    ensures i == NextBoundary(text, Hits(text), k) && piece == text[k..i] && st == StateAt(text, 0, i)
  {
    i := k;
    st := st0;
    piece := "";
    while i < |text|
      invariant k <= i <= |text|
      invariant st == StateAt(text, 0, i)
      invariant piece == text[k..i]
      invariant NextBoundary(text, Hits(text), k) == NextBoundary(text, Hits(text), i)
      decreases |text| - i
    {
      HitsAt(text, i);
      if UnionMatch(text, i).Some? && st.depth == 0 && st.quote.None? {
        break;
      }
      StateAtStep(text, 0, i);
      st := Step(st, text, i);
      piece := piece + [text[i]];
      i := i + 1;
    }
  }

  /**
   * The body of `splitByUnion` at a boundary `i`: push the text read so far
   * (or an empty first part), skip the UNION, read the next piece with the
   * inner loop and push it when it is not blank.
   */
  method TakeBoundary(text: string, i0: nat, hit: UnionHit, st0: ScanState, parts0: seq<UnionPart>, current: string,
                      ghost seen: bool)
    returns (parts: seq<UnionPart>, i: nat, st: ScanState)
    requires i0 < |text| && UnionMatch(text, i0) == Some(hit) && st0 == StateAt(text, 0, i0) == Top
    requires !seen ==> parts0 == [] && current == text[..i0] && NextBoundary(text, Hits(text), 0) == i0
    requires seen ==> current == [] && parts0 != [] && parts0 + PartsFrom(text, Hits(text), i0) == UnionParts(text)
    ensures i0 < i <= |text| && st == StateAt(text, 0, i) && (i < |text| ==> IsBoundary(text, Hits(text), i))
    ensures parts != [] && parts + PartsFrom(text, Hits(text), i) == UnionParts(text)
  {
    ghost var h := Hits(text);
    HitsAt(text, i0);
    parts := parts0;
    if Trim(current) != [] {
      parts := parts + [UnionPart(Trim(current), false)];
    }
    i := i0 + hit.len;
    if parts == [] {
      parts := parts + [UnionPart("", false)];
    }
    var isAll := hit.isAll;
    UnionMatchPlain(text, i0);
    PlainRun(text, 0, i0, i);
    ghost var k := i;
    var nextQuery;
    nextQuery, i, st := ReadPiece(text, i, st0);
    NextBoundaryIsFirst(text, h, k);
    ghost var mid := parts;
    if !seen {
      FirstBoundary(text, h, i0);
      assert mid == [UnionPart(Trim(text[..i0]), false)];
    } else {
      assert mid == parts0;
    }
    if Trim(nextQuery) != [] {
      parts := parts + [UnionPart(Trim(nextQuery), isAll)];
    }
    assert parts == mid + PieceList(Trim(nextQuery), isAll);
    PiecePreserves(text, h, i0, k, i, mid);
  }

  /** `splitByUnion`: an outer scan up to the first boundary, then one inner scan per piece. */
  method SplitByUnion(text: string) returns (parts: seq<UnionPart>)
    ensures parts == UnionParts(text)
  {
    ghost var h := Hits(text);
    parts := [];
    var current := "";
    var st := Top;
    StateAtStart(text, 0);
    var i := 0;
    ghost var seen := false;
    while i < |text|
      invariant 0 <= i <= |text|
      invariant st == StateAt(text, 0, i)
      invariant !seen ==> parts == [] && current == text[..i] && NextBoundary(text, h, 0) == NextBoundary(text, h, i)
      invariant seen ==> current == [] && parts != [] && (i < |text| ==> IsBoundary(text, h, i))
      invariant seen ==> parts + PartsFrom(text, h, i) == PartsWith(text, h)
      decreases |text| - i
    {
      var c := text[i];
      var next := Step(st, text, i);
      var hit := UnionMatch(text, i);
      ScanAt(text, i, st);
      if next.quote.None? && c != '(' && c != ')' && next.depth == 0 && hit.Some? {
        parts, i, st := TakeBoundary(text, i, hit.value, st, parts, current, seen);
        current := "";
        seen := true;
        continue;
      }
      assert !IsBoundary(text, h, i);
      st := next;
      current := current + [c];
      i := i + 1;
    }
    if !seen {
      assert current == text;
    }
    if Trim(current) != [] {
      parts := parts + [UnionPart(Trim(current), false)];
    }
    if parts == [] && Trim(text) != [] {
      parts := parts + [UnionPart(Trim(text), false)];
    }
  }
}
