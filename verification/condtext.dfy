/**
 * How `parseCondition` reads back the WHERE parts the generator writes as
 * `field op value`.
 */
module ConditionText {
  import opened Wrappers
  import opened Text
  import opened QueryModel
  import opened Patterns
  import opened Conditions

  /** The characters the operator alternatives can start with, upper-cased. */
  const OpStarts: string := "=!<>LIB"

  /** The upper-cased first character of every text the alternative `op` matches. */
  function OpFirst(op: OpPattern): (c: char)
    ensures op.Lit? && op.text != [] ==> c == op.text[0]
  {
    match op
    case Lit(w) => if w == [] then ' ' else w[0]
    case IsNull => 'I'
    case IsNotNull => 'I'
  }

  /** An alternative only matches where the text starts with its first character, up to case. */
  lemma OpEndFirst(t: string, q: nat, op: OpPattern)
    requires q <= |t| && OpEnd(t, q, op).Some?
    ensures q < |t| && UpperChar(t[q]) == OpFirst(op)
  {
    match op
    case Lit(w) => KeywordChar(t, q, w, 0);
    case IsNull => KeywordChar(t, q, "IS", 0);
    case IsNotNull => KeywordChar(t, q, "IS", 0);
  }

  /** Every alternative in `ops` starts with one of `OpStarts`. */
  predicate KnownStarts(ops: seq<OpPattern>) {
    forall op :: op in ops ==> OpFirst(op) in OpStarts
  }

  /** Every filter alternative starts with one of `OpStarts`. */
  lemma ConditionOpsStart()
    ensures KnownStarts(ConditionOps)
  {
  }

  /**
   * A field the operator pattern cannot cut: non-empty, no blanks, and no
   * character that, upper-cased, starts an operator.
   */
  predicate PlainField(f: string) {
    f != [] && forall k :: 0 <= k < |f| ==> FieldChar(f[k])
  }

  /** A character of a plain field: not a blank, and not the start of an operator in any case. */
  predicate FieldChar(c: char) {
    !IsSpace(c) && UpperChar(c) !in OpStarts
  }

  /** At a character no alternative starts with, the alternation fails. */
  lemma {:induction false} NoOpAt(t: string, q: nat, ops: seq<OpPattern>, nonEmpty: bool)
    requires q < |t| && UpperChar(t[q]) !in OpStarts
    requires forall op :: op in ops ==> OpFirst(op) in OpStarts
    ensures OpAt(t, q, ops, nonEmpty).None?
    decreases |ops|
  {
    if ops != [] {
      if OpEnd(t, q, ops[0]).Some? {
        OpEndFirst(t, q, ops[0]);
      }
      NoOpAt(t, q, ops[1..], nonEmpty);
    }
  }

  /**
   * The alternation picks the `i`-th alternative when every earlier one
   * fails at `q` and the value pattern matches after it.
   */
  lemma {:induction false} OpAtPicks(t: string, q: nat, ops: seq<OpPattern>, i: nat, nonEmpty: bool, oe: nat, v: nat)
    requires q <= |t| && i < |ops|
    requires forall j :: 0 <= j < i ==> OpEnd(t, q, ops[j]).None?
    requires OpEnd(t, q, ops[i]) == Some(oe) && ValueStart(t, oe, nonEmpty) == Some(v)
    ensures OpAt(t, q, ops, nonEmpty) == Some(OpHit(ops[i], q, oe, v))
    decreases i
  {
    if i > 0 {
      assert OpEnd(t, q, ops[0]).None?;
      forall j | 0 <= j < i - 1
        ensures OpEnd(t, q, ops[1..][j]).None?
      {
        assert ops[1..][j] == ops[j + 1];
      }
      assert ops[1..][i - 1] == ops[i];
      OpAtPicks(t, q, ops[1..], i - 1, nonEmpty, oe, v);
    }
  }

  /** An alternative whose first character differs from the text's, up to case, fails there. */
  lemma OpEndOther(t: string, q: nat, op: OpPattern)
    requires q < |t| && UpperChar(t[q]) != OpFirst(op)
    ensures OpEnd(t, q, op).None?
  {
    if OpEnd(t, q, op).Some? {
      OpEndFirst(t, q, op);
    }
  }

  /**
   * A plain field, one blank and a text on one line that neither starts nor
   * ends with a blank: the lazy field is exactly the plain field, whatever
   * the operator found after the blank.
   */
  lemma ParseAfterField(t: string, field: string, ops: seq<OpPattern>, hit: OpHit, op: string, value: string)
    requires KnownStarts(ops) && PlainField(field) && |field| + 1 < |t| && t[..|field|] == field && t[|field|] == ' '
    requires !IsSpace(t[|field| + 1]) && !IsSpace(t[|t| - 1])
    requires hit.opStart == |field| + 1 <= hit.opEnd <= hit.valueStart <= |t| && OpAt(t, |field| + 1, ops, false) == Some(hit)
    requires t[|field| + 1..hit.opEnd] == op && CollapseWs(Upper(op)) == op && t[hit.valueStart..] == value && Trim(value) == value
    ensures ops == ConditionOps ==> ParseCondition(t) == Some(Filter(field, op, value, "AND"))
  {
    SliceName(t, |field| + 1, hit.opEnd, op);
    SliceTrim(t, hit.valueStart, value);
    FieldFound(t, field, ops, hit);
    FieldEnds(t, field);
  }

  /** The lazy field of the condition pattern ends where the plain field ends. */
  lemma FieldFound(t: string, field: string, ops: seq<OpPattern>, hit: OpHit)
    requires KnownStarts(ops)
    requires PlainField(field) && |field| + 1 < |t| && t[..|field|] == field && t[|field|] == ' '
    requires !IsSpace(t[|field| + 1])
    requires OpAt(t, |field| + 1, ops, false) == Some(hit)
    ensures CondMatch(t, ops, false) == Some(Lazy(|field|, hit))
  {
    var n := |field|;
    var tails := CondTails(t, ops, false);
    forall e | 1 <= e < n
      ensures tails(e).None?
    {
      FieldHasNoOp(t, field, ops, e);
    }
    forall k | 0 <= k < n
      ensures !IsLineTerminator(t[k])
    {
      assert t[k] == field[k] && FieldChar(field[k]);
    }
    TailAfterBlank(t, n, ops, hit);
    assert tails(n) == CondTail(t, ops, false, n);
    LazyFromExact(t, tails, 1, n);
  }

  /** After one blank, the operator pattern is tried right after the blank. */
  lemma TailAfterBlank(t: string, n: nat, ops: seq<OpPattern>, hit: OpHit)
    requires n + 1 < |t| && t[n] == ' ' && !IsSpace(t[n + 1])
    requires OpAt(t, n + 1, ops, false) == Some(hit)
    ensures CondTail(t, ops, false, n) == Some(hit)
  {
    WsRunIs(t, n, 1);
  }

  /** Inside a plain field no operator can start. */
  lemma FieldHasNoOp(t: string, field: string, ops: seq<OpPattern>, e: nat)
    requires KnownStarts(ops)
    requires PlainField(field) && |field| <= |t| && t[..|field|] == field && e < |field|
    ensures CondTail(t, ops, false, e).None?
  {
    assert t[e] == field[e] && FieldChar(t[e]);
    WsRunIs(t, e, 0);
    NoOpAt(t, e, ops, false);
  }

  /** The text and the field are their own trims. */
  lemma FieldEnds(t: string, field: string)
    requires PlainField(field) && |field| < |t| && t[..|field|] == field && !IsSpace(t[|t| - 1])
    ensures Trim(t) == t && Trim(field) == field
  {
    assert field[0] == t[0] && FieldChar(t[0]);
    TrimOfTrimmed(t);
    TrimOfTrimmed(field);
  }

  // ---------------------------------------------------------------------
  // The texts the generator writes

  /** The operators the generator writes as `field op value` and the parser reads back unchanged. */
  const WrittenWords: seq<string> := ["=", "!=", ">", "<", "LIKE", "IN", "BETWEEN"]

  /**
   * `w` is the `i`-th alternative, a text without blanks or lower-case
   * letters, and no earlier alternative starts like it.
   */
  predicate WrittenAt(w: string, ops: seq<OpPattern>, i: nat) {
    i < |ops| && ops[i] == Lit(w) && w != [] && NoSpace(w)
    && (forall k :: 0 <= k < |w| ==> !('a' <= w[k] <= 'z'))
    && forall j :: 0 <= j < i ==> OpFirst(ops[j]) != w[0]
  }

  /** Where each written operator sits among the alternatives, and that no earlier alternative starts like it. */
  lemma WrittenIndex(w: string) returns (i: nat)
    requires w in WrittenWords
    ensures WrittenAt(w, ConditionOps, i)
  {
    if w in ["=", "!=", ">", "<"] {
      i := SymbolIndex(w);
    } else {
      i := WordIndex(w);
    }
  }

  /** `WrittenIndex` for the four comparisons. */
  lemma SymbolIndex(w: string) returns (i: nat)
    requires w in ["=", "!=", ">", "<"]
    ensures WrittenAt(w, ConditionOps, i)
  {
    if w == "=" {
      i := 0;
    } else if w == "!=" {
      i := 1;
    } else if w == ">" {
      i := 2;
    } else {
      i := 3;
    }
  }

  /** `WrittenIndex` for `LIKE`, `IN` and `BETWEEN`. */
  lemma WordIndex(w: string) returns (i: nat)
    requires w in ["LIKE", "IN", "BETWEEN"]
    ensures WrittenAt(w, ConditionOps, i)
  {
    if w == "LIKE" {
      i := 6;
    } else if w == "IN" {
      i := 7;
    } else {
      i := 8;
    }
  }

  /** A written operator followed by a blank and a value is found as that operator, the value starting after the blank. */
  lemma WordHit(t: string, q: nat, w: string, ops: seq<OpPattern>, i: nat, hit: OpHit)
    requires WrittenAt(w, ops, i) && hit == OpHit(Lit(w), q, q + |w|, q + |w| + 1) && q + |w| + 1 < |t| && t[q..q + |w|] == w
    requires t[q + |w|] == ' ' && !IsSpace(t[q + |w| + 1]) && OneLineFrom(t, q + |w| + 1)
    ensures OpAt(t, q, ops, false) == Some(hit)
  {
    assert t[q] == w[0];
    forall j | 0 <= j < i
      ensures OpEnd(t, q, ops[j]).None?
    {
      OpEndOther(t, q, ops[j]);
    }
    WrittenKeyword(t, q, w);
    WsRunIs(t, q + |w|, 1);
    OpAtPicks(t, q, ops, i, false, q + |w|, q + |w| + 1);
  }

  /** A written operator reads as itself once upper-cased and collapsed. */
  lemma WrittenName(w: string, ops: seq<OpPattern>, i: nat)
    requires WrittenAt(w, ops, i)
    ensures CollapseWs(Upper(w)) == w
  {
    UpperOfUpper(w);
    CollapsePlain(w);
  }

  /**
   * `field op value`, as the generator writes a comparison, `LIKE`, `IN` or
   * `BETWEEN`, reads back as the same field, operator and value.
   */
  lemma ParseWritten(field: string, w: string, value: string)
    requires PlainField(field) && w in WrittenWords
    requires value != [] && !IsSpace(value[0]) && !IsSpace(value[|value| - 1]) && NoLineTerminator(value)
    ensures ParseCondition(field + " " + w + " " + value) == Some(Filter(field, w, value, "AND"))
  {
    var i := WrittenIndex(w);
    ConditionOpsStart();
    ParseWrittenAt(field, w, value, ConditionOps, i);
  }

  /** `ParseWritten` for the `i`-th alternative. */
  lemma ParseWrittenAt(field: string, w: string, value: string, ops: seq<OpPattern>, i: nat)
    requires KnownStarts(ops) && PlainField(field) && WrittenAt(w, ops, i)
    requires value != [] && !IsSpace(value[0]) && !IsSpace(value[|value| - 1]) && NoLineTerminator(value)
    ensures ops == ConditionOps ==> ParseCondition(field + " " + w + " " + value) == Some(Filter(field, w, value, "AND"))
  {
    var t := field + " " + w + " " + value;
    WrittenLayout(t, field, w, value, |field| + 1);
    ParseLaidOut(t, field, w, value, ops, i);
  }

  /** `ParseWrittenAt` on a text of which only the layout is known. */
  lemma ParseLaidOut(t: string, field: string, w: string, value: string, ops: seq<OpPattern>, i: nat)
    requires KnownStarts(ops) && PlainField(field) && WrittenAt(w, ops, i)
    requires value != [] && !IsSpace(value[0]) && !IsSpace(value[|value| - 1])
    requires |field| + 1 + |w| + 1 < |t| && t[..|field|] == field && t[|field|] == ' '
    requires t[|field| + 1..|field| + 1 + |w|] == w && t[|field| + 1 + |w|] == ' ' && !IsSpace(t[|field| + 1])
    requires t[|field| + 1 + |w| + 1..] == value
    requires !IsSpace(t[|t| - 1]) && OneLineFrom(t, |field| + 1 + |w| + 1)
    ensures ops == ConditionOps ==> ParseCondition(t) == Some(Filter(field, w, value, "AND"))
  {
    var hit := OpHit(Lit(w), |field| + 1, |field| + 1 + |w|, |field| + 1 + |w| + 1);
    WordHit(t, |field| + 1, w, ops, i, hit);
    WrittenName(w, ops, i);
    TrimOfTrimmed(value);
    ParseAfterField(t, field, ops, hit, w, value);
  }

  /** A slice that is an operator text reads as that operator's name. */
  lemma SliceName(t: string, a: nat, b: nat, w: string)
    requires a <= b <= |t| && t[a..b] == w && CollapseWs(Upper(w)) == w
    ensures CollapseWs(Upper(t[a..b])) == w
  {
  }

  /** A tail that is a trimmed value trims to itself. */
  lemma SliceTrim(t: string, a: nat, v: string)
    requires a <= |t| && t[a..] == v && Trim(v) == v
    ensures Trim(t[a..]) == v
  {
  }

  /** Where the pieces of `field op value` sit. */
  lemma WrittenLayout(t: string, field: string, w: string, value: string, q: nat)
    requires t == field + " " + w + " " + value && PlainField(field) && w != [] && NoSpace(w) && q == |field| + 1
    requires value != [] && !IsSpace(value[|value| - 1]) && NoLineTerminator(value)
    ensures |field| + 1 + |w| + 1 < |t| && t[..|field|] == field && t[|field|] == ' '
    ensures t[|field| + 1..|field| + 1 + |w|] == w && t[|field| + 1 + |w|] == ' ' && !IsSpace(t[|field| + 1])
    ensures t[|field| + 1 + |w| + 1..] == value
    ensures !IsSpace(t[|t| - 1]) && OneLineFrom(t, |field| + 1 + |w| + 1)
  {
    assert t[q..q + |w|] == w;
    assert t[q + |w| + 1..] == value;
    forall k | q + |w| + 1 <= k < |t|
      ensures !IsLineTerminator(t[k])
    {
      assert t[k] == value[k - q - |w| - 1];
    }
  }

  // ---------------------------------------------------------------------
  // Conditions that do not read back as written

  /**
   * A written operator followed directly by a non-blank is found as that
   * operator, the value starting right after it.
   */
  lemma PrefixHit(t: string, q: nat, w: string, ops: seq<OpPattern>, i: nat, hit: OpHit)
    requires WrittenAt(w, ops, i) && hit == OpHit(Lit(w), q, q + |w|, q + |w|) && q + |w| < |t| && t[q..q + |w|] == w
    requires !IsSpace(t[q + |w|]) && OneLineFrom(t, q + |w|)
    ensures OpAt(t, q, ops, false) == Some(hit)
  {
    assert t[q] == w[0];
    forall j | 0 <= j < i
      ensures OpEnd(t, q, ops[j]).None?
    {
      OpEndOther(t, q, ops[j]);
    }
    WrittenKeyword(t, q, w);
    WsRunIs(t, q + |w|, 0);
    OpAtPicks(t, q, ops, i, false, q + |w|, q + |w|);
  }

  /** Where the pieces of `field w value` sit, when the value follows the operator without a blank. */
  lemma GluedLayout(t: string, field: string, w: string, value: string)
    requires t == field + " " + w + value && PlainField(field) && w != [] && NoSpace(w)
    requires value != [] && !IsSpace(value[0]) && !IsSpace(value[|value| - 1]) && NoLineTerminator(value)
    ensures |field| + 1 + |w| < |t| && t[..|field|] == field && t[|field|] == ' ' && !IsSpace(t[|field| + 1])
    ensures t[|field| + 1..|field| + 1 + |w|] == w && t[|field| + 1 + |w|..] == value
    ensures !IsSpace(t[|field| + 1 + |w|]) && !IsSpace(t[|t| - 1]) && OneLineFrom(t, |field| + 1 + |w|)
  {
    var q := |field| + 1;
    assert t[..|field|] == field;
    assert t[q..q + |w|] == w;
    assert t[q + |w|..] == value;
    forall k | q + |w| <= k < |t|
      ensures !IsLineTerminator(t[k])
    {
      assert t[k] == value[k - q - |w|];
    }
  }

  /** `field w value` read where `w` is the `i`-th alternative and the value follows it without a blank. */
  lemma ParseGlued(field: string, w: string, value: string, ops: seq<OpPattern>, i: nat)
    requires KnownStarts(ops) && PlainField(field) && WrittenAt(w, ops, i)
    requires value != [] && !IsSpace(value[0]) && !IsSpace(value[|value| - 1]) && NoLineTerminator(value)
    ensures ops == ConditionOps ==> ParseCondition(field + " " + w + value) == Some(Filter(field, w, value, "AND"))
  {
    var t := field + " " + w + value;
    var q := |field| + 1;
    GluedLayout(t, field, w, value);
    var hit := OpHit(Lit(w), q, q + |w|, q + |w|);
    PrefixHit(t, q, w, ops, i, hit);
    WrittenName(w, ops, i);
    TrimOfTrimmed(value);
    ParseAfterField(t, field, ops, hit, w, value);
  }

  /**
   * `>` and `<` are tried before `>=` and `<=`, so `field >= v` reads as the
   * operator `>` with the value `= v`, and `field <= v` as `<` with `= v`.
   */
  lemma ComparisonWithEqualsMisread(field: string, w: string, v: string)
    requires PlainField(field) && w in [">=", "<="]
    requires v != [] && !IsSpace(v[|v| - 1]) && NoLineTerminator(v)
    ensures ParseCondition(field + " " + w + " " + v) == Some(Filter(field, [w[0]], "= " + v, "AND"))
  {
    var c := [w[0]];
    var value := "= " + v;
    assert field + " " + w + " " + v == field + " " + c + value;
    assert value[|value| - 1] == v[|v| - 1];
    assert NoLineTerminator(value) by {
      forall k | 0 <= k < |value|
        ensures !IsLineTerminator(value[k])
      {
        if k >= 2 {
          assert value[k] == v[k - 2];
        }
      }
    }
    var i := SymbolIndex(c);
    ConditionOpsStart();
    ParseGlued(field, c, value, ConditionOps, i);
  }

  /** `IS\s+NULL` is the `i`-th alternative, and every earlier one is a text that cannot match where `IS` is written. */
  predicate NullFirstAt(ops: seq<OpPattern>, i: nat) {
    i < |ops| && ops[i] == IsNull
    && forall j :: 0 <= j < i ==>
         ops[j].Lit? && ops[j].text != [] && (ops[j].text[0] != 'I' || (|ops[j].text| >= 2 && ops[j].text[1] != 'S'))
  }

  /** `IS NULL` is the tenth filter alternative; before it only `IN` starts with `I`. */
  lemma NullIndex()
    ensures NullFirstAt(ConditionOps, 9)
  {
  }

  /** A keyword whose second letter differs from the text's second character does not match. */
  lemma SecondLetterNot(t: string, q: nat, w: string)
    requires q + 1 < |t| && |w| >= 2 && UpperChar(t[q + 1]) != w[1]
    ensures !KeywordAt(t, q, w)
  {
    if KeywordAt(t, q, w) {
      KeywordChar(t, q, w, 1);
    }
  }

  /** `IS NULL` at the end of the text is found as the NULL test, with an empty value. */
  lemma NullHit(t: string, q: nat, ops: seq<OpPattern>, i: nat)
    requires NullFirstAt(ops, i) && q + 7 == |t| && t[q..q + 7] == "IS NULL"
    ensures OpAt(t, q, ops, false) == Some(OpHit(IsNull, q, q + 7, q + 7))
    ensures CollapseWs(Upper(t[q..q + 7])) == t[q..q + 7]
  {
    assert t[q] == 'I' && t[q + 1] == 'S' && t[q + 2] == ' ' && t[q + 3] == 'N';
    forall j | 0 <= j < i
      ensures OpEnd(t, q, ops[j]).None?
    {
      if ops[j].text[0] != 'I' {
        OpEndOther(t, q, ops[j]);
      } else {
        SecondLetterNot(t, q, ops[j].text);
      }
    }
    assert t[q..q + 2] == "IS" && t[q + 3..q + 7] == "NULL";
    WrittenKeyword(t, q, "IS");
    WsRunIs(t, q + 2, 1);
    WrittenKeyword(t, q + 3, "NULL");
    assert OpEnd(t, q, IsNull) == Some(q + 7);
    WsRunIs(t, q + 7, 0);
    OpAtPicks(t, q, ops, i, false, q + 7, q + 7);
    IsNullText(t, q, q + 7);
  }

  /** `IsNullReadBack` for the `i`-th alternative, on a text of which only the layout is known. */
  lemma IsNullReadAt(t: string, field: string, ops: seq<OpPattern>, i: nat)
    requires KnownStarts(ops) && PlainField(field) && NullFirstAt(ops, i)
    requires |t| == |field| + 8 && t[..|field|] == field && t[|field|] == ' '
    requires t[|field| + 1..|field| + 8] == "IS NULL"
    ensures ops == ConditionOps ==> ParseCondition(t) == Some(Filter(field, "IS NULL", "", "AND"))
  {
    var q := |field| + 1;
    NullHit(t, q, ops, i);
    assert t[q] == 'I' && t[q + 6] == 'L' && t[q + 7..] == [];
    TrimOfTrimmed([]);
    ParseAfterField(t, field, ops, OpHit(IsNull, q, q + 7, q + 7), t[q..q + 7], t[q + 7..]);
  }

  /** Where the field and `IS NULL` of `field IS NULL` sit. */
  lemma NullLayout(t: string, field: string)
    requires t == field + " IS NULL"
    ensures |t| == |field| + 8 && t[..|field|] == field && t[|field|] == ' '
    ensures t[|field| + 1..|field| + 8] == "IS NULL"
  {
    assert t[..|field|] == field;
    assert t[|field| + 1..|field| + 8] == "IS NULL";
  }

  /** `field IS NULL` reads as the NULL test with an empty value. */
  lemma IsNullReadBack(field: string)
    requires PlainField(field)
    ensures ParseCondition(field + " IS NULL") == Some(Filter(field, "IS NULL", "", "AND"))
  {
    var t := field + " IS NULL";
    NullLayout(t, field);
    NullIndex();
    ConditionOpsStart();
    IsNullReadAt(t, field, ConditionOps, 9);
  }
}
