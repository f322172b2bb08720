/**
 * Hand-written matchers for the pieces of the case-insensitive patterns the
 * parser uses: a generic leftmost search, the word boundary `\b`, the clause
 * keywords (`SELECT`, `FROM`, `GROUP BY`, the optional JOIN kind in front of
 * `JOIN`, ...) and the decimal value of a run of digits.
 */
module Patterns {
  import opened Wrappers
  import opened Text

  /**
   * The leftmost position in `[i, end)` where `p` holds, or `end` when there
   * is none: how a regular expression without `^` picks its match, and how a
   * lazy `(.*?)` picks where it stops.
   */
  function FirstFrom(p: nat -> bool, i: nat, end: nat): (r: nat)
    requires i <= end
    ensures i <= r <= end
    decreases end - i
  {
    if i == end then end else if p(i) then i else FirstFrom(p, i + 1, end)
  }

  /** `FirstFrom` finds a position where `p` holds, unless it reaches `end`, and `p` holds nowhere before it. */
  lemma {:induction false} FirstFromIsFirst(p: nat -> bool, i: nat, end: nat)
    requires i <= end
    ensures FirstFrom(p, i, end) < end ==> p(FirstFrom(p, i, end))
    ensures forall j :: i <= j < FirstFrom(p, i, end) ==> !p(j)
    decreases end - i
  {
    if i < end && !p(i) {
      FirstFromIsFirst(p, i + 1, end);
    }
  }

  /** A position where `p` holds bounds the search from above; with none in range the search reaches `end`. */
  lemma {:induction false} FirstFromAtMost(p: nat -> bool, i: nat, end: nat, j: nat)
    requires i <= j < end && p(j)
    ensures FirstFrom(p, i, end) <= j
    decreases j - i
  {
    if !p(i) {
      FirstFromAtMost(p, i + 1, end, j);
    }
  }

  /** Where a lazy head `^(.+?)` ends, and what the rest of the pattern matched after it. */
  datatype Lazy<T> = Lazy(headEnd: nat, hit: T)

  /**
   * The lazy head tried at lengths `e, e + 1, ...`: the first length after
   * which the tail matches, by the table `tails`. `.` stops at a line
   * terminator, so the search gives up at the first one. The search is
   * written for any table.
   */
  function LazyFrom<T>(s: string, tails: nat -> Option<T>, e: nat): (r: Option<Lazy<T>>)
    requires 1 <= e <= |s|
    ensures r.Some? ==> e <= r.value.headEnd <= |s|
    decreases |s| - e
  {
    if IsLineTerminator(s[e - 1]) then None
    else
      match tails(e)
      case Some(w) => Some(Lazy(e, w))
      case None => if e < |s| then LazyFrom(s, tails, e + 1) else None
  }

  /** The lazy match found from `e` is a match: the tail matches after the head. */
  lemma {:induction false} LazyFromHit<T>(s: string, tails: nat -> Option<T>, e: nat)
    requires 1 <= e <= |s| && LazyFrom(s, tails, e).Some?
    ensures tails(LazyFrom(s, tails, e).value.headEnd) == Some(LazyFrom(s, tails, e).value.hit)
    decreases |s| - e
  {
    if tails(e).None? {
      LazyFromHit(s, tails, e + 1);
    }
  }

  /** The head of the lazy match found from `e` has no line terminator from `e - 1` on. */
  lemma {:induction false} LazyFromOneLine<T>(s: string, tails: nat -> Option<T>, e: nat)
    requires 1 <= e <= |s| && LazyFrom(s, tails, e).Some?
    ensures forall k :: e - 1 <= k < LazyFrom(s, tails, e).value.headEnd ==> !IsLineTerminator(s[k])
    decreases |s| - e
  {
    if tails(e).None? {
      LazyFromOneLine(s, tails, e + 1);
    }
  }

  /** The lazy match found from `e` is the leftmost: no shorter head from `e` on works. */
  lemma {:induction false} LazyFromFirst<T>(s: string, tails: nat -> Option<T>, e: nat)
    requires 1 <= e <= |s| && LazyFrom(s, tails, e).Some?
    ensures forall e' :: e <= e' < LazyFrom(s, tails, e).value.headEnd ==> tails(e').None?
    decreases |s| - e
  {
    if tails(e).None? {
      LazyFromFirst(s, tails, e + 1);
    }
  }

  /** A head without line terminators after which the tail matches is found, at that length or before. */
  lemma {:induction false} LazyFromFinds<T>(s: string, tails: nat -> Option<T>, e: nat, e': nat)
    requires 1 <= e <= e' <= |s| && tails(e').Some?
    requires forall k :: e - 1 <= k < e' ==> !IsLineTerminator(s[k])
    ensures LazyFrom(s, tails, e).Some? && LazyFrom(s, tails, e).value.headEnd <= e'
    decreases e' - e
  {
    if tails(e).None? {
      LazyFromFinds(s, tails, e + 1, e');
    }
  }

  /** A head without line terminators after which the tail matches, and after no shorter one, is the lazy match. */
  lemma LazyFromExact<T>(s: string, tails: nat -> Option<T>, e: nat, e': nat)
    requires 1 <= e <= e' <= |s| && tails(e').Some?
    requires forall k :: e - 1 <= k < e' ==> !IsLineTerminator(s[k])
    requires forall k :: e <= k < e' ==> tails(k).None?
    ensures LazyFrom(s, tails, e) == Some(Lazy(e', tails(e').value))
  {
    LazyFromFinds(s, tails, e, e');
    LazyFromFirst(s, tails, e);
    LazyFromHit(s, tails, e);
  }

  /** When `p` holds at `j` and nowhere in `[i, j)`, the search from `i` finds `j`. */
  lemma {:induction false} FirstFromAt(p: nat -> bool, i: nat, end: nat, j: nat)
    requires i <= j < end && p(j)
    requires forall k :: i <= k < j ==> !p(k)
    ensures FirstFrom(p, i, end) == j
    decreases j - i
  {
    if i < j {
      FirstFromAt(p, i + 1, end, j);
    }
  }

  /** When the tail matches after no head length from `e` on, the lazy match fails. */
  lemma {:induction false} LazyFromNone<T>(s: string, tails: nat -> Option<T>, e: nat)
    requires 1 <= e <= |s|
    requires forall k :: e <= k <= |s| ==> tails(k).None?
    ensures LazyFrom(s, tails, e).None?
    decreases |s| - e
  {
    if e < |s| {
      LazyFromNone(s, tails, e + 1);
    }
  }

  /** When `p` holds nowhere in `[i, end)`, the search reaches `end`. */
  lemma {:induction false} FirstFromNone(p: nat -> bool, i: nat, end: nat)
    requires i <= end
    requires forall k :: i <= k < end ==> !p(k)
    ensures FirstFrom(p, i, end) == end
    decreases end - i
  {
    if i < end {
      FirstFromNone(p, i + 1, end);
    }
  }

  /**
   * `\b` at position `i` when the subject is `s[lo..]`: a word character on
   * exactly one side, where the outside of the subject counts as non-word.
   */
  predicate BoundaryAt(s: string, lo: nat, i: nat)
    requires lo <= i <= |s|
  {
    (i > lo && IsWordChar(s[i - 1])) != (i < |s| && IsWordChar(s[i]))
  }

  /** `\b` right after a word character: the text ends at `i` or `s[i]` is not a word character. */
  predicate WordEndsAt(s: string, i: nat)
    requires i <= |s|
  {
    i == |s| || !IsWordChar(s[i])
  }

  /** A keyword made of upper-case letters starts with a letter wherever it matches. */
  lemma KeywordStart(s: string, i: nat, kw: string)
    requires kw != [] && 'A' <= kw[0] <= 'Z'
    ensures KeywordAt(s, i, kw) ==> IsWordChar(s[i])
  {
  }

  /** Length of the JOIN kind (`LEFT`, `RIGHT`, `INNER` or `FULL`, in any case) at `a`; 0 when there is none. */
  function KindLen(s: string, a: nat): (n: nat)
    requires a <= |s|
    ensures n == 0 || n == 4 || n == 5
    ensures a + n <= |s|
    ensures n > 0 ==> IsWordChar(s[a])
  {
    if KeywordAt(s, a, "LEFT") then 4
    else if KeywordAt(s, a, "RIGHT") then 5
    else if KeywordAt(s, a, "INNER") then 5
    else if KeywordAt(s, a, "FULL") then 4
    else 0
  }

  /**
   * End of `(?:LEFT|RIGHT|INNER|FULL)?\s*JOIN` matched at `a`. When a kind
   * matches but no `JOIN` follows, leaving the kind out cannot help: the
   * text at `a` is then a kind, not `JOIN`.
   */
  function KindJoinEnd(s: string, a: nat): (r: Option<nat>)
    requires a <= |s|
    ensures r.Some? ==> a + 4 <= r.value <= |s|
  {
    var k := a + KindLen(s, a);
    var j := k + WsRun(s, k);
    if KeywordAt(s, j, "JOIN") then Some(j + 4) else None
  }

  /** The clause keywords the statement splitter looks for. */
  datatype Phrase = Select | From | Join | Where | GroupBy | OrderBy | Limit

  /** End of the keyword `w1` matched at `a` and, when `w2` is not empty, of `\s+` and `w2` after it. */
  function WordsEnd(s: string, a: nat, w1: string, w2: string): (r: Option<nat>)
    requires a <= |s| && w1 != []
    ensures r.Some? ==> a + |w1| <= r.value <= |s| && KeywordAt(s, a, w1)
  {
    if !KeywordAt(s, a, w1) then None
    else if w2 == [] then Some(a + |w1|)
    else
      var b := a + |w1| + WsRun(s, a + |w1|);
      if b > a + |w1| && KeywordAt(s, b, w2) then Some(b + |w2|) else None
  }

  /** End of the phrase `ph` matched at `a` (`GROUP\s+BY`, `ORDER\s+BY`, the optional kind and `JOIN`, or one keyword). */
  function PhraseEnd(s: string, a: nat, ph: Phrase): (r: Option<nat>)
    requires a <= |s|
    ensures r.Some? ==> a < r.value <= |s|
  {
    match ph
    case Select => WordsEnd(s, a, "SELECT", "")
    case From => WordsEnd(s, a, "FROM", "")
    case Join => KindJoinEnd(s, a)
    case Where => WordsEnd(s, a, "WHERE", "")
    case GroupBy => WordsEnd(s, a, "GROUP", "BY")
    case OrderBy => WordsEnd(s, a, "ORDER", "BY")
    case Limit => WordsEnd(s, a, "LIMIT", "")
  }

  /** The phrase `ph` matches at `a`, followed by `\b` when `bounded`. */
  predicate PhraseAt(s: string, a: nat, ph: Phrase, bounded: bool)
    requires a <= |s|
  {
    PhraseEnd(s, a, ph).Some? && (!bounded || WordEndsAt(s, PhraseEnd(s, a, ph).value))
  }

  /** One of `phs` matches at `a` (an alternation, tried in order). */
  predicate AnyPhraseAt(s: string, a: nat, phs: seq<Phrase>, bounded: bool)
    requires a <= |s|
    decreases |phs|
  {
    phs != [] && (PhraseAt(s, a, phs[0], bounded) || AnyPhraseAt(s, a, phs[1..], bounded))
  }

  /** Every phrase starts with a letter, or with the blanks before `JOIN`: never with a quote or a parenthesis. */
  lemma PhraseStart(s: string, a: nat, ph: Phrase, bounded: bool)
    requires a <= |s| && PhraseAt(s, a, ph, bounded)
    ensures a < |s| && (IsWordChar(s[a]) || IsSpace(s[a]))
  {
    match ph
    case Join =>
      var k := a + KindLen(s, a);
      if k == a && !IsSpace(s[a]) {
        assert WsRun(s, a) == 0;
        KeywordStart(s, a, "JOIN");
      }
    case Select => KeywordStart(s, a, "SELECT");
    case From => KeywordStart(s, a, "FROM");
    case Where => KeywordStart(s, a, "WHERE");
    case GroupBy => KeywordStart(s, a, "GROUP");
    case OrderBy => KeywordStart(s, a, "ORDER");
    case Limit => KeywordStart(s, a, "LIMIT");
  }

  /** `PhraseStart` for an alternation. */
  lemma {:induction false} AnyPhraseStart(s: string, a: nat, phs: seq<Phrase>, bounded: bool)
    requires a <= |s| && AnyPhraseAt(s, a, phs, bounded)
    ensures a < |s| && (IsWordChar(s[a]) || IsSpace(s[a]))
    decreases |phs|
  {
    if PhraseAt(s, a, phs[0], bounded) {
      PhraseStart(s, a, phs[0], bounded);
    } else {
      AnyPhraseStart(s, a, phs[1..], bounded);
    }
  }

  /** Decimal value of a run of ASCII digits, as `parseInt` reads it. */
  function DigitsValue(d: string): (n: nat)
    requires AllDigits(d)
    ensures |d| == 1 ==> n == d[0] as int - '0' as int
    decreases |d|
  {
    if d == [] then 0
    else DigitsValue(d[..|d| - 1]) * 10 + (d[|d| - 1] as int - '0' as int)
  }
}
