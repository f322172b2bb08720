/**
 * Character classes and string primitives of the JavaScript runtime that the
 * SQL parser and generator lean on: the `\s`, `\w` and `\d` classes, `.` (which
 * stops at line terminators), `String.prototype.trim`, `replace(/\s+/g, ' ')`
 * and ASCII case folding as used by case-insensitive keyword patterns.
 */
module Text {

  /** JavaScript's `\s`: WhiteSpace and LineTerminator code points (also what `trim` strips). */
  predicate IsSpace(c: char) {
    ('\t' <= c <= '\r') || c == ' ' || c == '\U{00A0}' || c == '\U{1680}'
    || ('\U{2000}' <= c <= '\U{200A}') || c == '\U{2028}' || c == '\U{2029}'
    || c == '\U{202F}' || c == '\U{205F}' || c == '\U{3000}' || c == '\U{FEFF}'
  }

  /** The characters that a regular-expression `.` (without the `s` flag) does not match. */
  predicate IsLineTerminator(c: char) {
    c == '\n' || c == '\r' || c == '\U{2028}' || c == '\U{2029}'
  }

  /** JavaScript's `\w`: ASCII letters, digits and underscore. */
  predicate IsWordChar(c: char) {
    ('a' <= c <= 'z') || ('A' <= c <= 'Z') || ('0' <= c <= '9') || c == '_'
  }

  /** JavaScript's `\d`: ASCII digits only. */
  predicate IsDigit(c: char) {
    '0' <= c <= '9'
  }

  /** True when `.` matches every character of `s`. */
  predicate NoLineTerminator(s: string) {
    forall k :: 0 <= k < |s| ==> !IsLineTerminator(s[k])
  }

  /** True when `s` holds no character of `\s`. */
  predicate NoSpace(s: string) {
    forall k :: 0 <= k < |s| ==> !IsSpace(s[k])
  }

  predicate AllWordChars(s: string) {
    forall k :: 0 <= k < |s| ==> IsWordChar(s[k])
  }

  predicate AllDigits(s: string) {
    forall k :: 0 <= k < |s| ==> IsDigit(s[k])
  }

  /**
   * Upper-casing of one character as far as this model needs it: ASCII letters
   * only. Case-insensitive patterns in the source compare ASCII keywords, and
   * JavaScript's non-Unicode `/i` never folds a non-ASCII character onto ASCII.
   */
  function UpperChar(c: char): (r: char)
    ensures ('a' <= c <= 'z') ==> r != c && 'A' <= r <= 'Z'
    ensures !('a' <= c <= 'z') ==> r == c
  {
    if 'a' <= c <= 'z' then (c as int - 32) as char else c
  }

  function Upper(s: string): (r: string)
    ensures |r| == |s|
  {
    if s == [] then [] else [UpperChar(s[0])] + Upper(s[1..])
  }

  /** Upper-casing maps every character through `UpperChar`. */
  lemma {:induction false} UpperChars(s: string)
    ensures forall k :: 0 <= k < |s| ==> Upper(s)[k] == UpperChar(s[k])
    decreases |s|
  {
    if s != [] {
      UpperChars(s[1..]);
      assert Upper(s) == [UpperChar(s[0])] + Upper(s[1..]);
    }
  }

  /** `s` has the upper-case ASCII keyword `kw`, in any letter case, at position `i`. */
  predicate KeywordAt(s: string, i: nat, kw: string) {
    i + |kw| <= |s| && UpperMatch(s, i, kw)
  }

  /** The characters of `s` from `i` on, upper-cased, start with `kw`. */
  predicate UpperMatch(s: string, i: nat, kw: string)
    requires i + |kw| <= |s|
    decreases |kw|
  {
    kw == [] || (UpperChar(s[i]) == kw[0] && UpperMatch(s, i + 1, kw[1..]))
  }

  /** Keyword matching compares upper-cased characters one by one. */
  lemma {:induction false} KeywordAtUpper(s: string, i: nat, kw: string)
    requires i + |kw| <= |s|
    ensures KeywordAt(s, i, kw) <==> Upper(s[i..i + |kw|]) == kw
    decreases |kw|
  {
    if kw != [] {
      KeywordAtUpper(s, i + 1, kw[1..]);
      assert s[i..i + |kw|] == [s[i]] + s[i + 1..i + 1 + |kw[1..]|];
      assert kw == [kw[0]] + kw[1..];
    }
  }

  /** A text without lower-case letters is its own upper-casing. */
  lemma UpperOfUpper(w: string)
    requires forall k :: 0 <= k < |w| ==> !('a' <= w[k] <= 'z')
    ensures Upper(w) == w
  {
    UpperChars(w);
  }

  /** Where a text without lower-case letters is written, it matches as a keyword. */
  lemma WrittenKeyword(t: string, q: nat, w: string)
    requires q + |w| <= |t| && t[q..q + |w|] == w
    requires forall k :: 0 <= k < |w| ==> !('a' <= w[k] <= 'z')
    ensures KeywordAt(t, q, w)
  {
    UpperOfUpper(w);
    KeywordAtUpper(t, q, w);
  }

  /** Keyword matching only looks at the characters the keyword covers. */
  lemma {:induction false} KeywordSlice(s: string, i: nat, t: string, j: nat, kw: string)
    requires i + |kw| <= |s| && j + |kw| <= |t| && s[i..i + |kw|] == t[j..j + |kw|]
    ensures KeywordAt(s, i, kw) <==> KeywordAt(t, j, kw)
    decreases |kw|
  {
    if kw != [] {
      assert s[i] == s[i..i + |kw|][0] == t[j..j + |kw|][0] == t[j];
      assert s[i + 1..i + 1 + |kw[1..]|] == s[i..i + |kw|][1..];
      assert t[j + 1..j + 1 + |kw[1..]|] == t[j..j + |kw|][1..];
      KeywordSlice(s, i + 1, t, j + 1, kw[1..]);
    }
  }

  /** Where a keyword matches, its `m`-th character matches the keyword's `m`-th letter up to case. */
  lemma {:induction false} KeywordChar(s: string, i: nat, kw: string, m: nat)
    requires KeywordAt(s, i, kw) && m < |kw|
    ensures UpperChar(s[i + m]) == kw[m]
    decreases m
  {
    if m > 0 {
      KeywordChar(s, i + 1, kw[1..], m - 1);
    }
  }

  /** Where a keyword of upper-case letters matches, it covers word characters only. */
  lemma KeywordLetters(s: string, i: nat, kw: string)
    requires KeywordAt(s, i, kw) && forall m :: 0 <= m < |kw| ==> 'A' <= kw[m] <= 'Z'
    ensures forall x :: i <= x < i + |kw| ==> IsWordChar(s[x])
  {
    forall x | i <= x < i + |kw|
      ensures IsWordChar(s[x])
    {
      KeywordChar(s, i, kw, x - i);
    }
  }

  /** Length of the run of `\s` characters that starts at `i` (greedy `\s*`). */
  function WsRun(s: string, i: nat): (r: nat)
    requires i <= |s|
    ensures i + r <= |s|
    ensures i + r == |s| || !IsSpace(s[i + r])
    decreases |s| - i
  {
    if i < |s| && IsSpace(s[i]) then 1 + WsRun(s, i + 1) else 0
  }

  /** Length of the run of `\w` characters that starts at `i` (greedy `\w+`). */
  function WordRun(s: string, i: nat): (r: nat)
    requires i <= |s|
    ensures i + r <= |s|
    ensures i + r == |s| || !IsWordChar(s[i + r])
    decreases |s| - i
  {
    if i < |s| && IsWordChar(s[i]) then 1 + WordRun(s, i + 1) else 0
  }

  /** Length of the run of `\d` characters that starts at `i` (greedy `\d+`). */
  function DigitRun(s: string, i: nat): (r: nat)
    requires i <= |s|
    ensures i + r <= |s|
    ensures i + r == |s| || !IsDigit(s[i + r])
    decreases |s| - i
  {
    if i < |s| && IsDigit(s[i]) then 1 + DigitRun(s, i + 1) else 0
  }

  /** The characters a `WsRun` covers are whitespace. */
  lemma {:induction false} WsRunSpaces(s: string, i: nat)
    requires i <= |s|
    ensures forall k :: i <= k < i + WsRun(s, i) ==> IsSpace(s[k])
    decreases |s| - i
  {
    if i < |s| && IsSpace(s[i]) {
      WsRunSpaces(s, i + 1);
    }
  }

  /** The characters a `WordRun` covers are word characters. */
  lemma {:induction false} WordRunChars(s: string, i: nat)
    requires i <= |s|
    ensures forall k :: i <= k < i + WordRun(s, i) ==> IsWordChar(s[k])
    decreases |s| - i
  {
    if i < |s| && IsWordChar(s[i]) {
      WordRunChars(s, i + 1);
    }
  }

  /** The characters a `DigitRun` covers are digits. */
  lemma {:induction false} DigitRunDigits(s: string, i: nat)
    requires i <= |s|
    ensures forall k :: i <= k < i + DigitRun(s, i) ==> IsDigit(s[k])
    decreases |s| - i
  {
    if i < |s| && IsDigit(s[i]) {
      DigitRunDigits(s, i + 1);
    }
  }

  /** A text that starts with a run of word characters and then a non-word character. */
  lemma {:induction false} WordRunPrefix(t: string, name: string)
    requires |name| < |t| && t[..|name|] == name && AllWordChars(name) && !IsWordChar(t[|name|])
    ensures WordRun(t, 0) == |name|
  {
    WordRunFrom(t, 0, |name|);
  }

  lemma {:induction false} WordRunFrom(t: string, i: nat, n: nat)
    requires i <= n < |t| && (forall k :: i <= k < n ==> IsWordChar(t[k])) && !IsWordChar(t[n])
    ensures WordRun(t, i) == n - i
    decreases n - i
  {
    if i < n {
      WordRunFrom(t, i + 1, n);
    }
  }

  /** A run of digits from `i` that stops at `n` has length `n - i`. */
  lemma {:induction false} DigitRunFrom(t: string, i: nat, n: nat)
    requires i <= n <= |t| && (forall k :: i <= k < n ==> IsDigit(t[k])) && (n == |t| || !IsDigit(t[n]))
    ensures DigitRun(t, i) == n - i
    decreases n - i
  {
    if i < n {
      DigitRunFrom(t, i + 1, n);
    }
  }

  /** `String.prototype.trimStart`: drops the leading `\s` characters. */
  function TrimLeft(s: string): string
  {
    if s != [] && IsSpace(s[0]) then TrimLeft(s[1..]) else s
  }

  /** `String.prototype.trimEnd`: drops the trailing `\s` characters. */
  function TrimRight(s: string): string
  {
    if s != [] && IsSpace(s[|s| - 1]) then TrimRight(s[..|s| - 1]) else s
  }

  /** `String.prototype.trim`: drops the leading and trailing `\s` characters. */
  function Trim(s: string): string
  {
    TrimRight(TrimLeft(s))
  }

  /** `trimStart` keeps a suffix that does not start with `\s`, after a prefix of `\s`. */
  lemma {:induction false} TrimLeftSlice(s: string) returns (a: nat)
    ensures a <= |s| && TrimLeft(s) == s[a..]
    ensures TrimLeft(s) == [] || !IsSpace(TrimLeft(s)[0])
    ensures forall k :: 0 <= k < a ==> IsSpace(s[k])
  {
    if s != [] && IsSpace(s[0]) {
      var b := TrimLeftSlice(s[1..]);
      a := b + 1;
    } else {
      a := 0;
    }
  }

  /** `trimEnd` keeps a prefix that does not end with `\s`, before a suffix of `\s`. */
  lemma {:induction false} TrimRightSlice(s: string)
    ensures |TrimRight(s)| <= |s| && TrimRight(s) == s[..|TrimRight(s)|]
    ensures TrimRight(s) == [] || !IsSpace(TrimRight(s)[|TrimRight(s)| - 1])
    ensures forall k :: |TrimRight(s)| <= k < |s| ==> IsSpace(s[k])
  {
    if s != [] && IsSpace(s[|s| - 1]) {
      TrimRightSlice(s[..|s| - 1]);
    }
  }

  /** What `trim` keeps: a slice of its input that neither starts nor ends with `\s`. */
  lemma TrimSlice(s: string) returns (a: nat)
    ensures a + |Trim(s)| <= |s| && Trim(s) == s[a..a + |Trim(s)|]
    ensures Trim(s) == [] || (!IsSpace(Trim(s)[0]) && !IsSpace(Trim(s)[|Trim(s)| - 1]))
    ensures forall k :: 0 <= k < a ==> IsSpace(s[k])
    ensures forall k :: a + |Trim(s)| <= k < |s| ==> IsSpace(s[k])
  {
    a := TrimLeftSlice(s);
    var l := TrimLeft(s);
    TrimRightSlice(l);
    var n := |TrimRight(l)|;
    assert Trim(s) == l[..n] == s[a..a + n];
    if n > 0 {
      assert Trim(s)[0] == l[0];
    }
    forall k | a + n <= k < |s|
      ensures IsSpace(s[k])
    {
      assert s[k] == l[k - a];
    }
  }

  /** A string that neither starts nor ends with `\s` is its own trim. */
  lemma TrimOfTrimmed(s: string)
    requires s == [] || (!IsSpace(s[0]) && !IsSpace(s[|s| - 1]))
    ensures Trim(s) == s
  {
    assert TrimLeft(s) == s;
  }

  /** A text that has a non-blank character keeps some text once trimmed. */
  lemma TrimKeepsNonBlank(s: string, i: nat)
    requires i < |s| && !IsSpace(s[i])
    ensures Trim(s) != []
  {
    var a := TrimSlice(s);
  }

  /** Trimming twice is trimming once. */
  lemma TrimIdempotent(s: string)
    ensures Trim(Trim(s)) == Trim(s)
  {
    var _ := TrimSlice(s);
    TrimOfTrimmed(Trim(s));
  }

  /** A substring of text without line terminators has none either. */
  lemma NoLineTerminatorSlice(s: string, a: nat, b: nat)
    requires a <= b <= |s| && NoLineTerminator(s)
    ensures NoLineTerminator(s[a..b])
  {
  }

  /** What `s.replace(/\s+/g, ' ')` returns: every maximal run of `\s` becomes one space. */
  function CollapseWs(s: string): (r: string)
    ensures |r| <= |s|
    ensures s == [] <==> r == []
    decreases |s|
  {
    if s == [] then []
    else if IsSpace(s[0]) then
      [' '] + CollapseWs(s[WsRun(s, 0)..])
    else
      [s[0]] + CollapseWs(s[1..])
  }

  /** After collapsing, every blank is a space and no two blanks are adjacent. */
  lemma {:induction false} CollapseWsBlanks(s: string)
    ensures var r := CollapseWs(s);
      (forall k :: 0 <= k < |r| && IsSpace(r[k]) ==> r[k] == ' ')
      && (forall k :: 0 <= k < |r| - 1 ==> !(IsSpace(r[k]) && IsSpace(r[k + 1])))
    decreases |s|
  {
    if s != [] {
      var n := if IsSpace(s[0]) then WsRun(s, 0) else 1;
      CollapseWsBlanks(s[n..]);
      CollapseWsEnds(s[n..]);
      assert CollapseWs(s) == [if IsSpace(s[0]) then ' ' else s[0]] + CollapseWs(s[n..]);
    }
  }

  /** Collapsing keeps the first and the last character when they are not blanks, and a leading blank run becomes a space. */
  lemma {:induction false} CollapseWsEnds(s: string)
    ensures var r := CollapseWs(s);
      (s != [] && !IsSpace(s[0]) ==> r[0] == s[0])
      && (s != [] && IsSpace(s[0]) ==> r[0] == ' ')
      && (s != [] && !IsSpace(s[|s| - 1]) ==> r[|r| - 1] == s[|s| - 1])
    decreases |s|
  {
    if s != [] {
      var n := if IsSpace(s[0]) then WsRun(s, 0) else 1;
      var rest := s[n..];
      CollapseWsEnds(rest);
      WsRunSpaces(s, 0);
      assert CollapseWs(s) == [if IsSpace(s[0]) then ' ' else s[0]] + CollapseWs(rest);
      if rest != [] {
        assert rest[|rest| - 1] == s[|s| - 1];
      }
    }
  }

  /** Upper-casing works character by character, so it commutes with concatenation. */
  lemma UpperAppend(a: string, b: string)
    ensures Upper(a + b) == Upper(a) + Upper(b)
  {
    UpperChars(a + b);
    UpperChars(a);
    UpperChars(b);
    assert forall k :: 0 <= k < |a + b| ==> Upper(a + b)[k] == (Upper(a) + Upper(b))[k];
  }

  /** Whitespace holds no letters, so upper-casing leaves it as it is. */
  lemma UpperOfSpaces(s: string)
    requires forall k :: 0 <= k < |s| ==> IsSpace(s[k])
    ensures Upper(s) == s
  {
    UpperChars(s);
    assert forall k :: 0 <= k < |s| ==> Upper(s)[k] == s[k];
  }

  /** A run of whitespace that stops at `i + n` has length `n`. */
  lemma {:induction false} WsRunIs(s: string, i: nat, n: nat)
    requires i + n <= |s| && forall k :: i <= k < i + n ==> IsSpace(s[k])
    requires i + n == |s| || !IsSpace(s[i + n])
    ensures WsRun(s, i) == n
    decreases n
  {
    if n > 0 {
      WsRunIs(s, i + 1, n - 1);
    }
  }

  /** A single blank before a non-blank is a run of length one. */
  lemma WsRunOne(s: string, i: nat)
    requires i + 1 < |s| && s[i] == ' ' && !IsSpace(s[i + 1])
    ensures WsRun(s, i) == 1
  {
    assert WsRun(s, i + 1) == 0;
  }

  /** Collapsing whitespace passes over a leading stretch without whitespace. */
  lemma {:induction false} CollapsePlainPrefix(x: string, y: string)
    requires NoSpace(x)
    ensures CollapseWs(x + y) == x + CollapseWs(y)
    decreases |x|
  {
    if x != [] {
      assert CollapseWs(x + y) == [x[0]] + CollapseWs(x[1..] + y) by {
        assert x + y == [x[0]] + (x[1..] + y);
        CollapseCons(x[0], x[1..] + y);
      }
      CollapsePlainPrefix(x[1..], y);
      assert x + CollapseWs(y) == [x[0]] + (x[1..] + CollapseWs(y)) by {
        assert x == [x[0]] + x[1..];
      }
    } else {
      assert x + y == y;
    }
  }

  /** A character that is not whitespace is kept as it is. */
  lemma CollapseCons(c: char, rest: string)
    requires !IsSpace(c)
    ensures CollapseWs([c] + rest) == [c] + CollapseWs(rest)
  {
    assert ([c] + rest)[1..] == rest;
  }

  /** A text without whitespace is left as it is. */
  lemma CollapsePlain(x: string)
    requires NoSpace(x)
    ensures CollapseWs(x) == x
  {
    CollapsePlainPrefix(x, []);
    assert x + [] == x;
  }

  /** A run of whitespace before a non-blank collapses to one space. */
  lemma CollapseRun(w: string, y: string)
    requires w != [] && forall k :: 0 <= k < |w| ==> IsSpace(w[k])
    requires y == [] || !IsSpace(y[0])
    ensures CollapseWs(w + y) == [' '] + CollapseWs(y)
  {
    var s := w + y;
    WsRunIs(s, 0, |w|);
    assert s[|w|..] == y;
  }

  /** Words without whitespace separated by whitespace runs collapse to the words separated by single spaces. */
  lemma CollapseGap(x: string, w: string, y: string)
    requires NoSpace(x) && w != [] && forall k :: 0 <= k < |w| ==> IsSpace(w[k])
    requires y == [] || !IsSpace(y[0])
    ensures CollapseWs(x + w + y) == x + " " + CollapseWs(y)
  {
    assert x + w + y == x + (w + y);
    CollapsePlainPrefix(x, w + y);
    CollapseRun(w, y);
  }

  /** `s.includes(c)` */
  predicate Contains(s: string, c: char) {
    c in s
  }

  /** Decimal text of a natural number, as `String(n)` prints it. */
  function NatToString(n: nat): (r: string)
    ensures r != [] && AllDigits(r)
    ensures |r| > 1 ==> r[0] != '0'
    ensures n < 10 ==> |r| == 1
  {
    if n < 10 then [(n + 48) as char]
    else NatToString(n / 10) + [(n % 10 + 48) as char]
  }
}
