/**
 * The quote- and parenthesis-tracking state machine that every scanner of the
 * parser repeats (CTE boundary search, comma splitting, UNION splitting, the end
 * of a JOIN clause), and the comma splitter built on it.
 *
 * A quote character (`'` or `"`) not preceded by a backslash opens a quoted
 * region when none is open and closes it when it matches the opening one;
 * outside quotes `(` raises and `)` lowers the depth. The depth is a plain
 * integer: a `)` without a matching `(` makes it negative.
 */
module Scan {
  import opened Wrappers
  import opened Text

  datatype ScanState = ScanState(depth: int, quote: Option<char>)

  /** Depth 0, outside quotes: a top-level position. */
  const Top := ScanState(0, None)

  predicate IsQuoteChar(c: char) {
    c == '"' || c == '\''
  }

  /** The character before `s[i]` is a backslash (there is none before `s[0]`). */
  predicate Escaped(s: string, i: nat)
    requires i < |s|
  {
    i > 0 && s[i - 1] == '\\'
  }

  /** The state after reading `s[i]` in state `st`. */
  function Step(st: ScanState, s: string, i: nat): ScanState
    requires i < |s|
  {
    var c := s[i];
    var q :=
      if IsQuoteChar(c) && !Escaped(s, i) then
        (if st.quote.None? then Some(c) else if st.quote == Some(c) then None else st.quote)
      else st.quote;
    var d :=
      if q.None? && c == '(' then st.depth + 1
      else if q.None? && c == ')' then st.depth - 1
      else st.depth;
    ScanState(d, q)
  }

  /** The state of a scan started at `lo` in state `Top` when it reaches position `i`. */
  function StateAt(s: string, lo: nat, i: nat): ScanState
    requires lo <= i <= |s|
    decreases i - lo
  {
    if i == lo then Top else Step(StateAt(s, lo, i - 1), s, i - 1)
  }

  /** A scan starts at the top level. */
  lemma StateAtStart(s: string, lo: nat)
    requires lo <= |s|
    ensures StateAt(s, lo, lo) == Top
  {
  }

  /** Each character moves the scan by one `Step`. */
  lemma StateAtStep(s: string, lo: nat, i: nat)
    requires lo <= i < |s|
    ensures StateAt(s, lo, i + 1) == Step(StateAt(s, lo, i), s, i)
  {
  }

  /** Whitespace and word characters are neither quotes nor parentheses: they leave the state alone. */
  lemma StepPlain(st: ScanState, s: string, i: nat)
    requires i < |s| && (IsSpace(s[i]) || IsWordChar(s[i]))
    ensures Step(st, s, i) == st
  {
  }

  /** A run of whitespace and word characters leaves the state of a scan unchanged. */
  lemma {:induction false} PlainRun(s: string, lo: nat, j: nat, k: nat)
    requires lo <= j <= k <= |s|
    requires forall x :: j <= x < k ==> IsSpace(s[x]) || IsWordChar(s[x])
    ensures StateAt(s, lo, k) == StateAt(s, lo, j)
    decreases k - j
  {
    if j < k {
      PlainRun(s, lo, j, k - 1);
      StepPlain(StateAt(s, lo, k - 1), s, k - 1);
    }
  }

  /** Position `i` is top level for a scan that started at `lo`. */
  predicate TopLevel(s: string, lo: nat, i: nat)
    requires lo <= i <= |s|
  {
    StateAt(s, lo, i) == Top
  }

  // ---------------------------------------------------------------------
  // Comma splitting (splitByCommaRespectingParentheses / splitCTEDefinitions)

  /** The comma at `i` separates two pieces: it is at depth 0 outside quotes. */
  predicate IsCut(s: string, i: nat)
    requires i < |s|
  {
    s[i] == ',' && TopLevel(s, 0, i)
  }

  /** The first cut at or after `from`, or `|s|` when there is none. */
  function NextCut(s: string, from: nat): (r: nat)
    requires from <= |s|
    ensures from <= r <= |s|
    ensures r < |s| ==> IsCut(s, r)
    ensures forall j :: from <= j < r ==> !IsCut(s, j)
    decreases |s| - from
  {
    if from == |s| then |s| else if IsCut(s, from) then from else NextCut(s, from + 1)
  }

  /** One step of the comma scanner: the state it keeps, and when it cuts. */
  lemma CommaStep(s: string, i: nat, st: ScanState)
    requires i < |s| && st == StateAt(s, 0, i)
    ensures Step(st, s, i) == StateAt(s, 0, i + 1)
    ensures IsCut(s, i) <==> (Step(st, s, i).quote.None? && s[i] == ',' && st.depth == 0)
  {
    StateAtStep(s, 0, i);
  }

  /** Cutting at the first cut after `segStart` moves one segment from the rest to the done list. */
  lemma SegmentsAtCut(s: string, segStart: nat, i: nat, segs: seq<string>)
    requires segStart <= i < |s| && IsCut(s, i) && NextCut(s, segStart) >= i
    requires segs + Segments(s, segStart) == Segments(s, 0)
    ensures (segs + [s[segStart..i]]) + Segments(s, i + 1) == Segments(s, 0)
    ensures NextCut(s, i + 1) >= i + 1
  {
    assert Segments(s, segStart) == [s[segStart..i]] + Segments(s, i + 1);
  }

  /** A position that is not a cut does not end the current segment. */
  lemma NoCutStep(s: string, segStart: nat, i: nat)
    requires segStart <= i < |s| && !IsCut(s, i) && NextCut(s, segStart) >= i
    ensures NextCut(s, segStart) >= i + 1
  {
  }

  /** A scan that reaches the end without another cut has one segment left: the rest. */
  lemma SegmentsAtEnd(s: string, from: nat)
    requires from <= |s| && NextCut(s, from) == |s|
    ensures Segments(s, from) == [s[from..]]
  {
  }

  /** The text of `s[from..]` cut at every cut, untrimmed; there is always at least one segment. */
  function Segments(s: string, from: nat): (r: seq<string>)
    requires from <= |s|
    ensures |r| >= 1
    decreases |s| - from
  {
    var j := NextCut(s, from);
    if j == |s| then [s[from..]]
    else [s[from..j]] + Segments(s, j + 1)
  }

  /** Every segment trimmed. */
  function TrimEach(xs: seq<string>): seq<string>
  {
    if xs == [] then [] else TrimEach(xs[..|xs| - 1]) + [Trim(xs[|xs| - 1])]
  }

  lemma TrimEachSnoc(xs: seq<string>, x: string)
    ensures TrimEach(xs + [x]) == TrimEach(xs) + [Trim(x)]
  {
    assert (xs + [x])[..|xs|] == xs;
  }

  /** Trimming each segment keeps their number and order. */
  lemma {:induction false} TrimEachIndex(xs: seq<string>)
    ensures |TrimEach(xs)| == |xs|
    ensures forall k :: 0 <= k < |xs| ==> TrimEach(xs)[k] == Trim(xs[k])
  {
    if xs != [] {
      TrimEachIndex(xs[..|xs| - 1]);
    }
  }

  /** The trimmed text, as a list of one, unless it is blank. */
  function LastPiece(t: string): (r: seq<string>)
    ensures |r| <= 1
    ensures r != [] <==> Trim(t) != []
    ensures r != [] ==> r[0] == Trim(t)
  {
    if Trim(t) != [] then [Trim(t)] else []
  }

  /**
   * What the comma splitter returns for `s`: every segment trimmed, and the
   * last one dropped when it is blank (the earlier ones are kept even then).
   */
  function SplitTopLevelCommas(s: string): seq<string> {
    var segs := Segments(s, 0);
    TrimEach(segs[..|segs| - 1]) + LastPiece(segs[|segs| - 1])
  }

  /** `splitByCommaRespectingParentheses`: one left-to-right pass. */
  method SplitByCommaRespectingParentheses(text: string) returns (result: seq<string>)
    ensures result == SplitTopLevelCommas(text)
  {
    result := [];
    var current := "";
    var st := Top;
    StateAtStart(text, 0);
    ghost var segs: seq<string> := [];
    ghost var segStart := 0;
    var i := 0;
    while i < |text|
      invariant segStart <= i <= |text|
      invariant st == StateAt(text, 0, i)
      invariant current == text[segStart..i]
      invariant NextCut(text, segStart) >= i
      invariant segs + Segments(text, segStart) == Segments(text, 0)
      invariant result == TrimEach(segs)
    {
      var c := text[i];
      var next := Step(st, text, i);
      CommaStep(text, i, st);
      if next.quote.None? && c == ',' && st.depth == 0 {
        SegmentsAtCut(text, segStart, i, segs);
        TrimEachSnoc(segs, current);
        result := result + [Trim(current)];
        segs := segs + [current];
        current := "";
        segStart := i + 1;
      } else {
        NoCutStep(text, segStart, i);
        assert text[segStart..i + 1] == text[segStart..i] + [c];
        current := current + [c];
      }
      st := next;
      i := i + 1;
    }
    SegmentsAtEnd(text, segStart);
    assert current == text[segStart..];
    assert Segments(text, 0) == segs + [current];
    assert Segments(text, 0)[..|segs|] == segs;
    if Trim(current) != [] {
      result := result + [Trim(current)];
    }
  }

  /** `splitCTEDefinitions`: a second copy of the same splitter in the source. */
  method SplitCteDefinitions(text: string) returns (definitions: seq<string>)
    ensures definitions == SplitTopLevelCommas(text)
  {
    definitions := SplitByCommaRespectingParentheses(text);
  }

  // ---------------------------------------------------------------------
  // Properties of the comma splitter

  /** Every top-level comma of `s[from..]`, in order: an independent account of where cuts fall. */
  function CutsFrom(s: string, from: nat): seq<nat>
    requires from <= |s|
    decreases |s| - from
  {
    if from == |s| then []
    else if IsCut(s, from) then [from] + CutsFrom(s, from + 1)
    else CutsFrom(s, from + 1)
  }

  /** The cut list holds exactly the top-level commas of `s[from..]`, in increasing order. */
  lemma {:induction false} CutsAreTopLevelCommas(s: string, from: nat)
    requires from <= |s|
    ensures forall k :: 0 <= k < |CutsFrom(s, from)| ==>
      from <= CutsFrom(s, from)[k] < |s| && IsCut(s, CutsFrom(s, from)[k])
    ensures forall k :: 0 < k < |CutsFrom(s, from)| ==> CutsFrom(s, from)[k - 1] < CutsFrom(s, from)[k]
    ensures forall j :: from <= j < |s| && IsCut(s, j) ==> j in CutsFrom(s, from)
    decreases |s| - from
  {
    if from < |s| {
      CutsAreTopLevelCommas(s, from + 1);
    }
  }

  /** The next cut is the first element of the cut list, and the rest follow it. */
  lemma {:induction false} NextCutIsFirstCut(s: string, from: nat)
    requires from <= |s|
    ensures CutsFrom(s, from) == [] <==> NextCut(s, from) == |s|
    ensures CutsFrom(s, from) != [] ==>
      CutsFrom(s, from)[0] == NextCut(s, from) && CutsFrom(s, NextCut(s, from) + 1) == CutsFrom(s, from)[1..]
    decreases |s| - from
  {
    if from < |s| && !IsCut(s, from) {
      NextCutIsFirstCut(s, from + 1);
    }
  }

  /** Where the segment that ends at the `k`-th cut starts. */
  function PieceStart(from: nat, cuts: seq<nat>, k: nat): nat
    requires k <= |cuts|
  {
    if k == 0 then from else cuts[k - 1] + 1
  }

  /** Where the text after the last cut of `s[from..]` starts. */
  function TailStart(s: string, from: nat): nat
    requires from <= |s|
  {
    PieceStart(from, CutsFrom(s, from), |CutsFrom(s, from)|)
  }

  /** The segment that ends at the `k`-th cut starts at or after `from` and not after that cut. */
  lemma {:induction false} CutBounds(s: string, from: nat, k: nat)
    requires from <= |s| && k < |CutsFrom(s, from)|
    ensures from <= PieceStart(from, CutsFrom(s, from), k) <= CutsFrom(s, from)[k] < |s|
    decreases |s| - from
  {
    NextCutIsFirstCut(s, from);
    if k > 0 {
      CutBounds(s, NextCut(s, from) + 1, k - 1);
    }
  }

  /** The text after the last cut starts where it does for the text after the next cut. */
  lemma {:induction false} TailStartAfterCut(s: string, from: nat)
    requires from <= |s| && NextCut(s, from) < |s|
    ensures from <= NextCut(s, from) + 1 <= TailStart(s, from) <= |s|
    ensures TailStart(s, from) == TailStart(s, NextCut(s, from) + 1)
  {
    NextCutIsFirstCut(s, from);
    TailBounds(s, NextCut(s, from) + 1);
  }

  /** The text after the last cut starts at or after `from`. */
  lemma {:induction false} TailBounds(s: string, from: nat)
    requires from <= |s|
    ensures from <= TailStart(s, from) <= |s|
    decreases |s| - from
  {
    NextCutIsFirstCut(s, from);
    if NextCut(s, from) < |s| {
      TailBounds(s, NextCut(s, from) + 1);
    }
  }

  /** One segment per cut, plus the text after the last cut. */
  lemma {:induction false} SegmentsCount(s: string, from: nat)
    requires from <= |s|
    ensures |Segments(s, from)| == |CutsFrom(s, from)| + 1
    decreases |s| - from
  {
    NextCutIsFirstCut(s, from);
    if NextCut(s, from) < |s| {
      SegmentsCount(s, NextCut(s, from) + 1);
    }
  }

  /** Segment `k` is the text between cut `k - 1` (or `from`) and cut `k`. */
  lemma {:induction false} SegmentsBetweenCuts(s: string, from: nat, k: nat)
    requires from <= |s| && k < |CutsFrom(s, from)|
    ensures PieceStart(from, CutsFrom(s, from), k) <= CutsFrom(s, from)[k] < |s|
    ensures k < |Segments(s, from)|
    ensures Segments(s, from)[k] == s[PieceStart(from, CutsFrom(s, from), k)..CutsFrom(s, from)[k]]
    decreases |s| - from
  {
    CutBounds(s, from, k);
    NextCutIsFirstCut(s, from);
    if k > 0 {
      SegmentsBetweenCuts(s, NextCut(s, from) + 1, k - 1);
    }
  }

  /** The last segment is the text after the last cut. */
  lemma {:induction false} SegmentsTail(s: string, from: nat)
    requires from <= |s|
    ensures TailStart(s, from) <= |s|
    ensures |Segments(s, from)| == |CutsFrom(s, from)| + 1
    ensures Segments(s, from)[|CutsFrom(s, from)|] == s[TailStart(s, from)..]
    decreases |s| - from
  {
    NextCutIsFirstCut(s, from);
    SegmentsCount(s, from);
    if NextCut(s, from) < |s| {
      SegmentsTail(s, NextCut(s, from) + 1);
      TailStartAfterCut(s, from);
    }
  }

  /**
   * The splitter returns one piece per top-level comma, plus the text after the
   * last such comma when that is not blank; each piece is the trimmed text
   * between two consecutive top-level commas.
   */
  lemma SplitPieces(s: string)
    ensures TailStart(s, 0) <= |s|
    ensures |SplitTopLevelCommas(s)| == |CutsFrom(s, 0)| + (if Trim(s[TailStart(s, 0)..]) != [] then 1 else 0)
    ensures forall k :: 0 <= k < |CutsFrom(s, 0)| ==>
      PieceStart(0, CutsFrom(s, 0), k) <= CutsFrom(s, 0)[k] < |s| &&
      SplitTopLevelCommas(s)[k] == Trim(s[PieceStart(0, CutsFrom(s, 0), k)..CutsFrom(s, 0)[k]])
    ensures |SplitTopLevelCommas(s)| > |CutsFrom(s, 0)| ==>
      SplitTopLevelCommas(s)[|CutsFrom(s, 0)|] == Trim(s[TailStart(s, 0)..])
  {
    SegmentsTail(s, 0);
    TrimEachIndex(Segments(s, 0)[..|CutsFrom(s, 0)|]);
    forall k | 0 <= k < |CutsFrom(s, 0)|
      ensures PieceStart(0, CutsFrom(s, 0), k) <= CutsFrom(s, 0)[k] < |s|
      ensures SplitTopLevelCommas(s)[k] == Trim(s[PieceStart(0, CutsFrom(s, 0), k)..CutsFrom(s, 0)[k]])
    {
      SegmentsBetweenCuts(s, 0, k);
    }
  }

  /** Every piece the splitter returns is already trimmed. */
  lemma SplitPiecesAreTrimmed(s: string)
    ensures forall k :: 0 <= k < |SplitTopLevelCommas(s)| ==>
      Trim(SplitTopLevelCommas(s)[k]) == SplitTopLevelCommas(s)[k]
  {
    var segs := Segments(s, 0);
    var n := |segs| - 1;
    var init := TrimEach(segs[..n]);
    TrimEachIndex(segs[..n]);
    forall k | 0 <= k < |init|
      ensures Trim(init[k]) == init[k]
    {
      TrimIdempotent(segs[..n][k]);
    }
    TrimIdempotent(segs[n]);
    var last := LastPiece(segs[n]);
    assert forall k :: 0 <= k < |last| ==> Trim(last[k]) == last[k];
    assert SplitTopLevelCommas(s) == init + last;
  }

  /** Outside quotes, a negative depth stays negative over characters that are neither `(` nor quotes. */
  lemma {:induction false} NegativeDepthPersists(s: string, i: nat, j: nat)
    requires i <= j <= |s|
    requires StateAt(s, 0, i).depth < 0 && StateAt(s, 0, i).quote.None?
    requires forall k :: i <= k < j ==> s[k] != '(' && !IsQuoteChar(s[k])
    ensures StateAt(s, 0, j).depth < 0 && StateAt(s, 0, j).quote.None?
    decreases j - i
  {
    if i < j {
      NegativeDepthPersists(s, i, j - 1);
      StateAtStep(s, 0, j - 1);
    }
  }

  /**
   * A `)` read at top level before any `(` makes the depth negative; from then
   * on no comma is cut until a `(` or a quote character comes along.
   */
  lemma NoCutAfterStrayClose(s: string, i: nat, j: nat)
    requires i < j < |s| && s[i] == ')' && TopLevel(s, 0, i)
    requires forall k :: i < k < j ==> s[k] != '(' && !IsQuoteChar(s[k])
    ensures !IsCut(s, j)
  {
    StateAtStep(s, 0, i);
    assert StateAt(s, 0, i + 1).depth == -1;
    NegativeDepthPersists(s, i + 1, j);
  }
}
