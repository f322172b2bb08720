# sqlConstructor core in Dafny

sqlConstructor is a visual SQL query builder. A query is edited as data: selected
tables, fields with aggregates and aliases, JOINs with ON comparisons, WHERE
filters joined by `AND`/`OR`, GROUP BY, ORDER BY, LIMIT and OFFSET. Several
queries can be chained with `UNION`/`UNION ALL`, and named CTEs (each itself a
chain of sub-queries) can precede the main chain. This project models the three
parts of the program that carry its logic:

- **The SQL reader** (`src/utils/advancedSqlParser.js`). It turns SQL text into
  the query model: it cleans the whitespace, splits off the `WITH` section, cuts
  CTE definitions and select lists at top-level commas, cuts chains at top-level
  `UNION`s, cuts a statement into clauses, and reads fields, JOINs, conditions,
  ORDER BY items and LIMIT/OFFSET. The regular expressions of the source are
  written out as explicit searches: the leftmost match, lazy `(.*?)` heads,
  greedy `\s*`/`\w+` runs and `/i` keyword matching. The quote-and-parenthesis
  scans are loops proved against those searches.
- **The SQL writer** (`src/utils/sql.js`). It contains identifier
  sanitising, value literals, one statement per query, the UNION chain of a CTE
  body, and the whole text with its `WITH` section. The loops of the source are
  methods proved equal to specification functions. Round-trip lemmas show that
  what the writer emits, the reader reads back.
- **The editor store** (`src/store.js`). It is a `class` whose fields are the
  main chain, the selected query, the CTE list and the selected CTE. Its getters
  are functions and its mutations are methods. Every mutation keeps the store's
  invariant and states the whole new state.

The modules are:
- `Text`: JavaScript's `\s`, `\w`, `\d`, `trim` and `toUpperCase`.
- `Scan`: the comma splitter's quote and depth state.
- `Patterns`: leftmost and lazy matching.
- `CteSplit`, `UnionSplit` and `Clauses`: the three splitters.
- `FieldParse`, `Conditions`, `ConditionText`, `JoinParse` and `ClauseParse`: the clause readers.
- `Parser`: the statement, chain, CTE and document readers.
- `SqlText` and `SqlGen`: the writer.
- `GenRoundTrip`: writer-to-reader round trips.
- `Store`: the editor state.

The flag `unionAllNext` is set on the statement that FOLLOWS a `UNION ALL`. Both
the reader (advancedSqlParser.js:192, 243, 293) and the writer (sql.js:104, 127)
work that way, although the name of the flag suggests the statement before it.
The model follows the code.

## Model

| member | source | states |
|---|---|---|
| Text.CollapseWsBlanks | src/utils/advancedSqlParser.js:9 | after the whitespace cleaning, every blank left is a single space and no two blanks are adjacent |
| Text.CollapseWsEnds | src/utils/advancedSqlParser.js:9 | the cleaning keeps a non-blank first and last character, and turns a leading blank run into one space |
| Text.TrimSlice | src/utils/advancedSqlParser.js:9 | `trim` returns a slice of its input that neither starts nor ends with whitespace; only whitespace is cut off on either side |
| Text.TrimIdempotent | src/utils/advancedSqlParser.js:9 | trimming twice is trimming once |
| Text.KeywordAtUpper | src/utils/advancedSqlParser.js:234 | a `/i` keyword matches exactly where the covered text, upper-cased, is the keyword |
| Text.NatToString | src/utils/sql.js:83-84 | the decimal text of a number is a non-empty digit string without a leading zero |
| Lists.PushPresent | src/utils/advancedSqlParser.js:104-109 | the forEach-and-push-if-present loop appends exactly the present results, in order |
| Lists.FilterMapFrom | src/utils/advancedSqlParser.js:104-109 | at most one result per element, and each result is the present result of some element |
| Lists.FilterMapAll | src/utils/advancedSqlParser.js:104-109 | when every element gives a result, nothing is dropped and the order is kept |
| Lists.FilterMapEmpty | src/utils/advancedSqlParser.js:104-109 | the push loop keeps nothing exactly when no element gives a result |
| Lists.JoinedSplitOn | src/utils/sql.js:117 | splitting at a character and joining with it gives the text back, and no piece holds the character |
| Scan.SplitByCommaRespectingParentheses | src/utils/advancedSqlParser.js:686-728 | the one-pass loop returns the trimmed top-level comma pieces, the last dropped when blank |
| Scan.SplitCteDefinitions | src/utils/advancedSqlParser.js:114-156 | the second copy of the splitter returns the same pieces |
| Scan.CommaStep | src/utils/advancedSqlParser.js:693-718 | one character moves the quote/depth state by one step; the loop cuts exactly at a comma at depth 0 outside quotes |
| Scan.CutsAreTopLevelCommas | src/utils/advancedSqlParser.js:693-718 | the cut list holds exactly the top-level commas, in increasing order |
| Scan.NextCut | src/utils/advancedSqlParser.js:693-718 | the scan's next cut is a top-level comma and none lies before it |
| Scan.NextCutIsFirstCut | src/utils/advancedSqlParser.js:693-718 | the next cut the loop finds is the first of the cut list, and the rest follow it |
| Scan.LastPiece | src/utils/advancedSqlParser.js:723-725 | the tail is kept, trimmed, exactly when it is not blank |
| Scan.SplitPieces | src/utils/advancedSqlParser.js:686-728 | one piece per top-level comma, each the trimmed text between consecutive cuts, plus the trimmed tail when not blank |
| Scan.SplitPiecesAreTrimmed | src/utils/advancedSqlParser.js:714-724 | every piece returned is already trimmed |
| Scan.NoCutAfterStrayClose | src/utils/advancedSqlParser.js:708-717 | a `)` before any `(` makes the depth negative, and no later comma is cut until a `(` or a quote comes |
| Scan.NegativeDepthPersists | src/utils/advancedSqlParser.js:697-717 | a negative depth outside quotes stays negative until a `(` or a quote character |
| Patterns.LazyFromFirst | src/utils/advancedSqlParser.js:392 | a lazy head stops at the shortest length after which the rest of the pattern matches |
| Patterns.LazyFromExact | src/utils/advancedSqlParser.js:392 | a one-line head after which the rest matches, and after no shorter head, is the lazy match |
| Patterns.FirstFromIsFirst | src/utils/advancedSqlParser.js:392 | an unanchored pattern matches at its leftmost position and nowhere before |
| Patterns.PhraseStart | src/utils/advancedSqlParser.js:471 | every clause keyword starts with a letter or blank, never a quote or parenthesis, so a match leaves the scan state alone |
| CteSplit.SeparateCtesFromMain | src/utils/advancedSqlParser.js:42-96 | the scan returns the parts defined by the first top-level `SELECT` after `WITH ` |
| CteSplit.NoWithKeepsAll | src/utils/advancedSqlParser.js:44-48 | without a leading `WITH `, there is no CTE part and the main part is the whole text |
| CteSplit.MainPartStartsWithSelect | src/utils/advancedSqlParser.js:80-87 | with a top-level `SELECT`, the CTE part is the trimmed text between `WITH ` and it, and the main part is the trimmed rest, starting with `SELECT` |
| CteSplit.AllCtesWithoutSelect | src/utils/advancedSqlParser.js:94-95 | without a top-level `SELECT`, everything after `WITH ` is the CTE part and the main part is empty |
| CteSplit.SelectStartIsFirst | src/utils/advancedSqlParser.js:59-92 | the scan stops at a `SELECT` at depth 0 outside quotes, and there is none before it |
| CteSplit.MatchCteDef | src/utils/advancedSqlParser.js:160 | a matched definition has a word-character name that opens the text, a non-empty one-line body, and ends with `)` |
| CteSplit.CteDefRoundTrip | src/utils/advancedSqlParser.js:158-164 | `name AS (body)` matches with that name and body |
| UnionSplit.SplitByUnion | src/utils/advancedSqlParser.js:201-324 | the outer and inner scans return the parts defined by the top-level UNION boundaries |
| UnionSplit.ReadPiece | src/utils/advancedSqlParser.js:263-288 | the inner loop reads exactly up to the next top-level UNION, keeping the scan state |
| UnionSplit.TakeBoundary | src/utils/advancedSqlParser.js:236-298 | at a boundary, the parts pushed so far plus the parts after the next boundary are the whole split |
| UnionSplit.ScanAt | src/utils/advancedSqlParser.js:211-234 | a UNION match does not move the scan state; a boundary is a UNION match at depth 0 outside quotes |
| UnionSplit.UnionMatchPlain | src/utils/advancedSqlParser.js:234 | the text the UNION pattern matches is whitespace and letters only |
| UnionSplit.NextBoundaryIsFirst | src/utils/advancedSqlParser.js:226-236 | the next boundary found is a boundary, and none lies before it |
| UnionSplit.PartsFromShape | src/utils/advancedSqlParser.js:290-295 | the parts after a UNION are trimmed and never blank |
| UnionSplit.UnionPartsShape | src/utils/advancedSqlParser.js:240-321 | every part is trimmed; only the first may be blank, and the first is never flagged `UNION ALL` |
| UnionSplit.UnionPartsBlank | src/utils/advancedSqlParser.js:307-321 | the split is empty exactly when the text is blank |
| UnionSplit.LeadingUnion | src/utils/advancedSqlParser.js:251-257 | a text that starts with UNION gets an empty, unflagged first part |
| UnionSplit.NoUnionSinglePart | src/utils/advancedSqlParser.js:316-321 | a text without any UNION match is one part, the trimmed text |
| Clauses.SplitQueryIntoParts | src/utils/advancedSqlParser.js:387-486 | the clause searches and the JOIN loop return the parts the clause patterns define |
| Clauses.ClauseBodyPresent | src/utils/advancedSqlParser.js:471-481 | a clause is present exactly when its head matches somewhere |
| Clauses.ClauseBodySpan | src/utils/advancedSqlParser.js:471-481 | a clause is the trimmed text from the leftmost head to the first stop keyword after it, or to the end |
| Clauses.FirstHead | src/utils/advancedSqlParser.js:471 | the clause head is taken at its leftmost match |
| Clauses.FirstStop | src/utils/advancedSqlParser.js:471 | the lazy body stops at the first stop keyword or at the end |
| Clauses.LimitAt | src/utils/advancedSqlParser.js:474 | a LIMIT match captures non-empty digits, and non-empty OFFSET digits when present |
| Clauses.OnEnd | src/utils/advancedSqlParser.js:417 | an ON match ends after `JOIN`, a table word and `ON` |
| Clauses.FindJoins | src/utils/advancedSqlParser.js:398-469 | the JOIN loop returns the JOIN clauses the step function defines |
| Clauses.JoinRound | src/utils/advancedSqlParser.js:402-468 | one round skips a JOIN without ON, or yields the clause up to its end |
| Clauses.JoinStep | src/utils/advancedSqlParser.js:402-468 | every round that finds a JOIN moves the search forward, so the loop ends |
| Clauses.FindJoinEnd | src/utils/advancedSqlParser.js:426-460 | the inner loop stops at the first JOIN/WHERE/GROUP BY/ORDER BY/LIMIT at depth 0 outside quotes |
| Clauses.JoinScanAt | src/utils/advancedSqlParser.js:426-457 | one step of the JOIN-end scan; the stop test is made at depth 0 outside quotes |
| Clauses.NextOnMatches | src/utils/advancedSqlParser.js:417 | the leftmost ON search result is a match |
| Clauses.JoinClausesTrimmed | src/utils/advancedSqlParser.js:462-466 | every JOIN clause kept is trimmed and not blank |
| Clauses.NoOnNoJoins | src/utils/advancedSqlParser.js:417-421 | without an ON match after any JOIN keyword there are no JOIN clauses |
| FieldParse.ParseField | src/utils/advancedSqlParser.js:500-564 | a field's aggregate is empty or one of COUNT, SUM, AVG, MIN, MAX |
| FieldParse.AliasMatchHit | src/utils/advancedSqlParser.js:514 | the alias match has a one-line lazy head, and no shorter head lets the alias pattern match |
| FieldParse.AliasTailShape | src/utils/advancedSqlParser.js:514 | the alias is a word-character run with whitespace before it |
| FieldParse.FieldAlias | src/utils/advancedSqlParser.js:513-519 | the field's alias is the alias match's word, or empty without a match |
| FieldParse.FieldAliasIsWord | src/utils/advancedSqlParser.js:513-519 | an alias is empty or a run of word characters |
| FieldParse.TrailingWordIsAlias | src/utils/advancedSqlParser.js:514-519 | a trailing bare word after whitespace is always taken as the alias, whatever precedes it |
| FieldParse.NoSpaceNoAlias | src/utils/advancedSqlParser.js:514 | a text without whitespace has no alias |
| FieldParse.CloseNoAlias | src/utils/advancedSqlParser.js:514 | a text ending with `)` has no alias |
| FieldParse.AliasedField | src/utils/advancedSqlParser.js:513-519 | `x AS w` reads as `x` alone with alias `w` |
| FieldParse.AliasIndependent | src/utils/advancedSqlParser.js:521-560 | the alias plays no part in reading the rest of the field |
| FieldParse.AggName | src/utils/advancedSqlParser.js:522-525 | a recognised aggregate is one of the five, and the text starts with it and `(` |
| FieldParse.AggNameOfCall | src/utils/advancedSqlParser.js:522-525 | each of the five names followed by `(` is recognised |
| FieldParse.AggNeedsParen | src/utils/advancedSqlParser.js:522 | without `(` there is no aggregate |
| FieldParse.InnerOfCall | src/utils/advancedSqlParser.js:528-530 | in `a(x)` with `x` on one line, the captured argument is `x` |
| FieldParse.StripClose | src/utils/advancedSqlParser.js:532 | dropping the trailing `)` keeps a prefix |
| FieldParse.TableField | src/utils/advancedSqlParser.js:553 | a `table.column` match splits the text at the dot into two non-empty halves |
| FieldParse.TableFieldWords | src/utils/advancedSqlParser.js:553 | both halves of the match are word characters |
| FieldParse.BareName | src/utils/advancedSqlParser.js:557-559 | the name is `custom_field` exactly when the text is `*` or contains `(`, and the text itself otherwise |
| FieldParse.ArgField | src/utils/advancedSqlParser.js:530-549 | an aggregate's field keeps the argument as its expression, the aggregate and the alias; `*` gives the name `*` and no table, `t.c` gives table `t` and column `c`, any other argument no table and its `BareName` |
| FieldParse.AggField | src/utils/advancedSqlParser.js:523-550 | an aggregate call's field carries that aggregate and alias |
| FieldParse.PlainField | src/utils/advancedSqlParser.js:551-560 | a field without aggregate keeps its text as the expression |
| FieldParse.QualifiedField | src/utils/advancedSqlParser.js:553-556 | `table.column` reads as that table and column, with no alias and no aggregate |
| FieldParse.AggCallField | src/utils/advancedSqlParser.js:521-549 | `a(x)` reads as aggregate `a` over the field read from `x` |
| FieldParse.AggStarField | src/utils/advancedSqlParser.js:537-539 | `COUNT(*)` and the other aggregates over `*` read as the name `*`, no table, expression `*` and that aggregate |
| FieldParse.BareFieldName | src/utils/advancedSqlParser.js:551-560 | without an aggregate or `table.column`, a field has no table and is named `custom_field` when its text is `*` or contains `(`, its text otherwise |
| Conditions.ParseCondition | src/utils/advancedSqlParser.js:648 | a condition read has the connective `AND` |
| Conditions.ParseConditionShape | src/utils/advancedSqlParser.js:640-650 | a read condition has a non-empty trimmed field, one of the eleven operator names and a trimmed value |
| Conditions.ConditionOpsNamed | src/utils/advancedSqlParser.js:641-646 | every operator alternative is written as one of the eleven names |
| Conditions.OpTextName | src/utils/advancedSqlParser.js:646 | upper-casing and collapsing the matched operator text gives its name, e.g. `is  not null` reads `IS NOT NULL` |
| Conditions.IsNullText | src/utils/advancedSqlParser.js:646 | `IS\s+NULL` collapses to `IS NULL` |
| Conditions.IsNotNullText | src/utils/advancedSqlParser.js:646 | `IS\s+NOT\s+NULL` collapses to `IS NOT NULL` |
| Conditions.CondMatchHit | src/utils/advancedSqlParser.js:641 | the condition match takes the shortest field after which an operator and a value match |
| Conditions.OpAt | src/utils/advancedSqlParser.js:641 | the first operator alternative after which the value matches wins |
| Conditions.ValueStart | src/utils/advancedSqlParser.js:641 | the captured value starts after the blanks and reaches the end on one line |
| Conditions.JoinCondShape | src/utils/advancedSqlParser.js:613-619 | an ON comparison has non-empty trimmed sides and one of the six symbols |
| Conditions.JoinOpText | src/utils/advancedSqlParser.js:613 | a matched comparison covers exactly its symbol |
| Conditions.ConnectiveAt | src/utils/advancedSqlParser.js:732 | a connective is blanks, a word and blanks, in that order |
| Conditions.ConnectiveWord | src/utils/advancedSqlParser.js:739 | the connective word reads `AND` or `OR` |
| Conditions.SegmentsFrom | src/utils/advancedSqlParser.js:732-741 | the split always yields at least one segment |
| Conditions.SegmentsFromCut | src/utils/advancedSqlParser.js:732-740 | a segment runs to the leftmost connective and carries its upper-cased word |
| Conditions.SegmentsShape | src/utils/advancedSqlParser.js:730-744 | every connective is `AND` or `OR`, the last is `AND`, and every condition is trimmed |
| Conditions.SplitShape | src/utils/advancedSqlParser.js:730-744 | the split is non-empty, ends with `AND` and holds trimmed conditions |
| Conditions.NonBlankNoConnective | src/utils/advancedSqlParser.js:732 | no connective starts at a non-blank character |
| Conditions.SplitJoinedSegments | src/utils/advancedSqlParser.js:730-744 | conditions written with single blanks around `AND`/`OR` split back into the same segments |
| Conditions.ParenthesesDoNotProtect | src/utils/advancedSqlParser.js:732 | `(x OR y)` is cut into `(x` and `y)`: parentheses do not protect a connective |
| ConditionText.OpEndFirst | src/utils/advancedSqlParser.js:641 | an operator matches only where the text starts with its first character, up to case |
| ConditionText.ConditionOpsStart | src/utils/advancedSqlParser.js:641 | every operator alternative starts with a known character |
| ConditionText.NoOpAt | src/utils/advancedSqlParser.js:641 | at a character no operator starts with, the alternation fails |
| ConditionText.OpAtPicks | src/utils/advancedSqlParser.js:641 | the alternation picks the first alternative that matches and lets the value match |
| ConditionText.FieldHasNoOp | src/utils/advancedSqlParser.js:641 | no operator can start inside a plain field |
| ConditionText.FieldFound | src/utils/advancedSqlParser.js:641 | the lazy field ends exactly where a plain field ends |
| ConditionText.WrittenIndex | src/utils/advancedSqlParser.js:641 | each written operator has an alternative and no earlier alternative starts like it |
| ConditionText.WrittenName | src/utils/advancedSqlParser.js:646 | a written operator reads as itself once upper-cased and collapsed |
| ConditionText.ParseWritten | src/utils/advancedSqlParser.js:640-650 | `field op value` with a plain field reads back as that field, operator and value |
| ConditionText.ComparisonWithEqualsMisread | src/utils/advancedSqlParser.js:641 | `field >= v` and `field <= v` read as `>` and `<` with the value `= v`, because the shorter alternatives come first |
| ConditionText.IsNullReadBack | src/utils/advancedSqlParser.js:640-650 | `field IS NULL` with a plain field reads as that field, `IS NULL` and an empty value |
| JoinParse.RestStart | src/utils/advancedSqlParser.js:592 | the ON text starts after at least one blank and runs to the end on one line |
| JoinParse.MatchJoin | src/utils/advancedSqlParser.js:592 | a JOIN match has the leading kind text and a word-character table |
| JoinParse.TableOn | src/utils/advancedSqlParser.js:592 | the table read is the whole run of word characters at its start, and blanks and `ON` follow it |
| JoinParse.JoinAliasBreaks | src/utils/advancedSqlParser.js:592 | `kind JOIN table alias ON on` does not match, so the JOIN is not read, unless the alias is the word `ON` |
| JoinParse.JoinConds | src/utils/advancedSqlParser.js:612-621 | at most one comparison per ON piece |
| JoinParse.ParseJoin | src/utils/advancedSqlParser.js:588-625 | a JOIN is read exactly when the JOIN pattern matches |
| JoinParse.KindName | src/utils/advancedSqlParser.js:601 | a matched kind, upper-cased, is one of LEFT, RIGHT, INNER, FULL |
| JoinParse.KindAtStart | src/utils/advancedSqlParser.js:592 | a kind written at the start is found as that kind |
| JoinParse.TableRun | src/utils/advancedSqlParser.js:592 | the table is the whole word run before the blank |
| JoinParse.JoinCondsShape | src/utils/advancedSqlParser.js:612-621 | each kept comparison has non-empty trimmed sides and one of the six symbols |
| JoinParse.JoinCondsAllKept | src/utils/advancedSqlParser.js:612-621 | when every piece is a comparison, all are kept in order |
| JoinParse.ParseJoinShape | src/utils/advancedSqlParser.js:588-625 | a read JOIN has one of the four kinds, a word-character table and well-formed comparisons |
| JoinParse.ParseWrittenJoin | src/utils/advancedSqlParser.js:588-625 | `kind JOIN table ON on` reads as that kind and table with the comparisons of `on` |
| ClauseParse.SelectFieldsEach | src/utils/advancedSqlParser.js:488-498 | one field per comma piece, in order, each read by `ParseField` |
| ClauseParse.ParseSelectClause | src/utils/advancedSqlParser.js:488-498 | the fields of the pieces are appended to the query; nothing else changes |
| ClauseParse.FirstToken | src/utils/advancedSqlParser.js:568 | the first token is a blank-free prefix that ends at the text's end or at a blank |
| ClauseParse.FromTables | src/utils/advancedSqlParser.js:566-572 | at most one table, present exactly when the text is non-empty and starts with a non-blank |
| ClauseParse.ParseFromClause | src/utils/advancedSqlParser.js:566-572 | the table, if any, is appended to the selected tables; nothing else changes |
| ClauseParse.FromTableWritten | src/utils/advancedSqlParser.js:568-571 | `table rest` reads as `table` |
| ClauseParse.FromFirstWordOnly | src/utils/advancedSqlParser.js:568 | only the first word is read, and it is a prefix of the text |
| ClauseParse.JoinsOfShape | src/utils/advancedSqlParser.js:574-586 | at most one join per clause, each from some clause, with an upper-case kind and a word table |
| ClauseParse.JoinsOfAllMatch | src/utils/advancedSqlParser.js:574-586 | when every clause matches, every clause gives its join, in order |
| ClauseParse.ParseJoins | src/utils/advancedSqlParser.js:574-586 | the joins that parse are appended; nothing else changes |
| ClauseParse.PushFilters | src/utils/advancedSqlParser.js:631-637 | the WHERE loop appends the filters of the read conditions, each with its connective |
| ClauseParse.FiltersPush | src/utils/advancedSqlParser.js:631-636 | one round of the WHERE loop pushes the filter of its segment when present |
| ClauseParse.ParseWhereClause | src/utils/advancedSqlParser.js:627-638 | the read filters are appended to the query; nothing else changes |
| ClauseParse.FiltersOfShape | src/utils/advancedSqlParser.js:631-637 | at most one filter per segment, each a read condition with `AND` or `OR` logic |
| ClauseParse.ParsedConditionsRead | src/utils/advancedSqlParser.js:640-650 | every read condition has the filter shape |
| ClauseParse.WhereFiltersShape | src/utils/advancedSqlParser.js:627-638 | at most one filter per condition, each well formed, with `AND` or `OR` logic |
| ClauseParse.FiltersOfAllParse | src/utils/advancedSqlParser.js:631-637 | when every condition reads, filter `k` is condition `k` with the connective after it |
| ClauseParse.WhereRoundTrip | src/utils/advancedSqlParser.js:627-638 | conditions joined by `AND`/`OR` read back one filter each, with the connective written after it and `AND` last |
| ClauseParse.GroupByList | src/utils/advancedSqlParser.js:652-655 | re-trimming the comma pieces changes nothing |
| ClauseParse.ParseGroupByClause | src/utils/advancedSqlParser.js:652-655 | the GROUP BY list is replaced by the comma pieces |
| ClauseParse.DirTail | src/utils/advancedSqlParser.js:660 | a direction read is `ASC` or `DESC` |
| ClauseParse.OrderItemOf | src/utils/advancedSqlParser.js:659-671 | an item's direction is `ASC` or `DESC` |
| ClauseParse.OrderItemInCases | src/utils/advancedSqlParser.js:660-671 | either no match (the whole piece, `ASC`), or the trimmed head with the tail's direction |
| ClauseParse.OrderItemDir | src/utils/advancedSqlParser.js:664-669 | the direction stored is `ASC` or `DESC` |
| ClauseParse.ParseOrderByClause | src/utils/advancedSqlParser.js:657-673 | one item per comma piece is appended; nothing else changes |
| ClauseParse.OrderItemsEach | src/utils/advancedSqlParser.js:657-673 | one item per piece, in order |
| ClauseParse.OrderRoundTrip | src/utils/advancedSqlParser.js:660-665 | `field dir` reads back as the field and the upper-cased direction |
| ClauseParse.NoDirInField | src/utils/advancedSqlParser.js:660 | the direction cannot be found inside the field |
| ClauseParse.OrderWithoutBlank | src/utils/advancedSqlParser.js:666-670 | a piece without inner blanks is the field, ascending |
| ClauseParse.OrderDescWritten | src/utils/advancedSqlParser.js:660-665 | a descending item comes from a piece ending in a blank and `DESC` |
| ClauseParse.LimitValuesOf | src/utils/advancedSqlParser.js:675-684 | values are read exactly when the LIMIT pattern matches |
| ClauseParse.ParseLimitClause | src/utils/advancedSqlParser.js:675-684 | on a match the limit is set, and the offset when written; otherwise the query is unchanged |
| ClauseParse.DigitsOfNat | src/utils/advancedSqlParser.js:678-680 | `parseInt` of a number's decimal text is that number |
| ClauseParse.LimitRoundTrip | src/utils/advancedSqlParser.js:675-684 | `LIMIT n [OFFSET m]` reads back as `n` and `m` |
| Parser.ReadSelect | src/utils/advancedSqlParser.js:350-353 | the SELECT reader runs only when the clause is given |
| Parser.ReadFrom | src/utils/advancedSqlParser.js:354-357 | the FROM reader runs only when the clause is given |
| Parser.ReadJoins | src/utils/advancedSqlParser.js:358-361 | the JOIN reader appends the joins of the clauses found |
| Parser.ReadWhere | src/utils/advancedSqlParser.js:362-365 | the WHERE reader runs only when the clause is given |
| Parser.ReadGroupBy | src/utils/advancedSqlParser.js:366-369 | the GROUP BY list is replaced only when the clause is given |
| Parser.ReadOrderBy | src/utils/advancedSqlParser.js:370-373 | the ORDER BY reader runs only when the clause is given |
| Parser.ReadLimit | src/utils/advancedSqlParser.js:374-377 | the limit, and the offset when written, replace the old values |
| Parser.ReadParts | src/utils/advancedSqlParser.js:349-377 | the readers run in order, each only on its given clause |
| Parser.ParseSelectQuery | src/utils/advancedSqlParser.js:326-385 | the statement reads as the query its clause parts define |
| Parser.SelectQueryWellRead | src/utils/advancedSqlParser.js:326-385 | every statement reads as a well-formed query: at most one table, known aggregates, kinds and operators |
| Parser.FromTablesAtMostOne | src/utils/advancedSqlParser.js:566-572 | the FROM reader gives at most one table |
| Parser.FieldsAggregates | src/utils/advancedSqlParser.js:521-525 | every field read names one of the five aggregates, or none |
| Parser.SelectQueryFields | src/utils/advancedSqlParser.js:350-353 | the query holds one field per top-level comma piece of its SELECT list |
| Parser.ParseUnionQueries | src/utils/advancedSqlParser.js:182-199 | the loop returns the chain: one query per UNION part |
| Parser.UnionQueriesIndexed | src/utils/advancedSqlParser.js:188-196 | query `k` is read from part `k` at position `k` |
| Parser.QueryNamesDistinct | src/utils/advancedSqlParser.js:193 | different positions get different names |
| Parser.UnionQueriesNamed | src/utils/advancedSqlParser.js:182-199 | one query per part, named `Запрос k+1`, flagged as its part; the first is never flagged; names are distinct |
| Parser.UnionQueriesBlank | src/utils/advancedSqlParser.js:182-199 | a chain is empty exactly when its text is blank |
| Parser.UnionQueriesWellRead | src/utils/advancedSqlParser.js:188-196 | every query of a chain is well formed |
| Parser.CteOf | src/utils/advancedSqlParser.js:158-175 | a CTE is read exactly when the definition pattern matches |
| Parser.ParseSingleCte | src/utils/advancedSqlParser.js:158-175 | the method returns the CTE the definition describes |
| Parser.CteRoundTrip | src/utils/advancedSqlParser.js:158-175 | `name AS (body)` reads as CTE `name` with the chain of `body`, first sub-query selected |
| Parser.ParseCtes | src/utils/advancedSqlParser.js:98-112 | the loop returns the CTEs of the matching definitions, in order |
| Parser.CtesShape | src/utils/advancedSqlParser.js:98-112 | at most one CTE per definition, each marked as a CTE, first query selected, a word name, from some definition |
| Parser.DocumentOf | src/utils/advancedSqlParser.js:3-40 | a document is read exactly when the text is non-empty |
| Parser.ParseCompleteSql | src/utils/advancedSqlParser.js:3-40 | the method returns the document the cleaned text describes, or a failure for empty text |
| Parser.BlankSqlIsEmpty | src/utils/advancedSqlParser.js:8-35 | a whitespace-only text reads as no CTEs and no queries |
| Parser.PlainStatement | src/utils/advancedSqlParser.js:19-33 | without a leading `WITH`, there are no CTEs and the chain is read from the whole cleaned text |
| Parser.DocumentWellRead | src/utils/advancedSqlParser.js:3-40 | every query of the document, main or inside a CTE, is well formed |
| QueryModel.EmptyQuery | src/utils/advancedSqlParser.js:329-342 | an empty query has every list empty, no limit or offset, and the given name |
| SqlText.QuoteIdentifier | src/utils/sql.js:1-3 | sanitising never lengthens the identifier |
| SqlText.QuoteIdentifierChars | src/utils/sql.js:1-3 | only `[a-zA-Z0-9_.]` characters remain |
| SqlText.QuoteIdentifierKeeps | src/utils/sql.js:1-3 | the identifier is unchanged exactly when it holds only those characters |
| SqlText.QuoteIdentifierIdempotent | src/utils/sql.js:1-3 | sanitising twice is sanitising once |
| SqlText.QuoteIdentifierAppend | src/utils/sql.js:1-3 | sanitising distributes over concatenation |
| SqlText.QuoteIdentifierCounts | src/utils/sql.js:1-3 | every kept character occurs as often as in the input, and no other character occurs |
| SqlText.DoubleQuotes | src/utils/sql.js:11 | doubling quotes never shortens the text |
| SqlText.UndoubleDoubleQuotes | src/utils/sql.js:11 | SQL reads back exactly the text that was quoted |
| SqlText.DoubleQuotesLines | src/utils/sql.js:11 | doubling quotes adds no line terminator |
| SqlText.Literal | src/utils/sql.js:5-12 | a literal is never empty |
| SqlText.LiteralMeaning | src/utils/sql.js:5-12 | a literal is the trimmed value when it reads as SQL, else a quoted string from which SQL reads back the trimmed value |
| SqlText.LiteralIdempotent | src/utils/sql.js:5-12 | a literal reads as SQL and a second `literal` leaves it unchanged |
| SqlGen.BaseTable | src/utils/sql.js:15-19 | the table is non-empty, and missing exactly when neither the first table nor the first field's table is set |
| SqlGen.KeepFoundMembers | src/utils/sql.js:22 | the field filter keeps every element found in the list |
| SqlGen.KeepFoundAll | src/utils/sql.js:22 | every field is selected, in order |
| SqlGen.SelectPartsEach | src/utils/sql.js:23-45 | one select entry per field in order, or `*` alone for no fields |
| SqlGen.FieldExprAggregate | src/utils/sql.js:25-40 | a field without an aggregate, or whose expression already starts with an aggregate call, is written as its expression; any other aggregated field is wrapped as `agg(` … `)` |
| SqlGen.OnTextOmitted | src/utils/sql.js:50-51 | the ON part is omitted exactly when no comparison has both sides |
| SqlGen.JoinPartShape | src/utils/sql.js:47-53 | a join gives a part exactly when it has a table; the part starts with its type (default INNER) and ` JOIN ` |
| SqlGen.JoinPartsShape | src/utils/sql.js:47-53 | joins without a table are dropped; with all tables set, one part per join in order |
| SqlGen.BuildWhereParts | src/utils/sql.js:55-79 | the WHERE loop returns the texts of the WHERE pieces |
| SqlGen.PushedPieces | src/utils/sql.js:74-78 | one round keeps the pushed texts equal to the pieces' texts |
| SqlGen.WherePrefixPairs | src/utils/sql.js:55-79 | with every filter written, each round pushes a text and a connective |
| SqlGen.WherePiecesAlternate | src/utils/sql.js:55-79 | the WHERE list alternates filter text and connective, ending with the last filter |
| SqlGen.WherePrefixSkipped | src/utils/sql.js:58 | skipped filters push nothing |
| SqlGen.WhereDanglingConnective | src/utils/sql.js:74-78 | when every later filter is skipped, the WHERE list ends with a dangling connective |
| SqlGen.WhereEndsWithLast | src/utils/sql.js:74-78 | a written last filter ends the WHERE list |
| SqlGen.WherePrefixGrows | src/utils/sql.js:55-79 | the WHERE list never shrinks |
| SqlGen.EmittedPushes | src/utils/sql.js:58-75 | a written filter leaves a non-empty WHERE list |
| SqlGen.WherePiecesNone | src/utils/sql.js:55-79 | the WHERE list is empty exactly when no filter is written |
| SqlGen.BetweenPieces | src/utils/sql.js:66-68 | `BETWEEN` quotes the first two comma pieces of the value, `NULL` for a missing second |
| SqlGen.BuildSingleSql | src/utils/sql.js:14-92 | the method returns the statement the query defines |
| SqlGen.StatementStart | src/utils/sql.js:86 | every statement starts with `SELECT` |
| SqlGen.SingleSqlPlaceholder | src/utils/sql.js:15-19 | the placeholder comes back exactly when there is no base table |
| SqlGen.SingleSqlNonEmpty | src/utils/sql.js:14-92 | the statement is never empty |
| SqlGen.SingleSqlIgnoresFlag | src/utils/sql.js:14-92 | the UNION ALL flag does not change how a statement is written |
| SqlGen.CtePartsEach | src/utils/sql.js:99-105 | each round pushes the part of its statement |
| SqlGen.BuildCteSql | src/utils/sql.js:94-108 | the method returns the CTE body chain |
| SqlGen.CteSqlEmpty | src/utils/sql.js:96-97 | the body is empty exactly when the CTE has no queries |
| SqlGen.FirstStatementAlone | src/utils/sql.js:103 | the first statement is written without a UNION word |
| SqlGen.LaterFlagDecides | src/utils/sql.js:104 | a later statement gets `UNION ALL` exactly when it is flagged |
| SqlGen.CtePartsSameWords | src/utils/sql.js:100-105 | chains with the same later flags push the same parts |
| SqlGen.FirstFlagIgnored | src/utils/sql.js:103-104 | the first statement's flag plays no part in the body |
| SqlGen.IndentedLines | src/utils/sql.js:117 | every line of the indented CTE body starts with two blanks |
| SqlGen.JoinedIndented | src/utils/sql.js:117 | indented lines joined by line breaks keep every line indented |
| SqlGen.BuildSqlFromQueries | src/utils/sql.js:110-131 | the method returns the `WITH` section, if any, and the main chain |
| SqlGen.MainPartsAreCteParts | src/utils/sql.js:123-128 | the main chain is written like a CTE body chain |
| SqlGen.NoCtesIsCteChain | src/utils/sql.js:110-131 | without CTEs, the text is the chain `buildCTESQL` writes |
| SqlGen.SingleQueryText | src/utils/sql.js:123-130 | one query without CTEs is written as its single statement |
| SqlGen.WithOnlyForCtes | src/utils/sql.js:114-120 | the text starts with `WITH ` exactly when there are CTEs |
| GenRoundTrip.WordIsIdentifier | src/utils/sql.js:2 | sanitising leaves a word as it is |
| GenRoundTrip.QuotedQualified | src/utils/sql.js:37 | `table.column` of words is unchanged by sanitising and holds no `(` |
| GenRoundTrip.PlainFieldRoundTrip | src/utils/sql.js:24-43 | a written `table.column` field reads back as the same field |
| GenRoundTrip.AliasedFieldRoundTrip | src/utils/sql.js:43 | a written `table.column AS alias` field reads back with its alias |
| GenRoundTrip.AggregateFieldText | src/utils/sql.js:36-38 | an aggregated plain field is written `AGG(table.column)` |
| GenRoundTrip.AggregateFieldRoundTrip | src/utils/sql.js:30-39 | a written aggregated field reads back with its table, column and aggregate |
| GenRoundTrip.LiteralIsPlain | src/utils/sql.js:5-12 | a literal is non-blank at both ends and on one line |
| GenRoundTrip.WrittenFilterText | src/utils/sql.js:61-73 | a comparison, LIKE or IN filter is written `field OP literal` |
| GenRoundTrip.FilterRoundTrip | src/utils/sql.js:59-73 | a written `=`, `!=`, `>`, `<`, `LIKE` or `IN` filter on a plain field reads back with the sanitised field, upper-cased operator and literal value |
| GenRoundTrip.ComparisonWithEqualsNotRoundTrip | src/utils/sql.js:61-72 | a written `>=` or `<=` filter reads back as `>` or `<` with the value `= literal`, not as written |
| GenRoundTrip.IsNullRoundTrip | src/utils/sql.js:62-63 | a written `IS NULL` filter reads back as the sanitised field and `IS NULL` with an empty value |
| GenRoundTrip.FilterTextStable | src/utils/sql.js:59-73 | writing the read-back filter gives the same text |
| GenRoundTrip.OrderRoundTrip | src/utils/sql.js:82 | a written ORDER BY entry reads back with the sanitised field and direction, `ASC` by default |
| GenRoundTrip.LimitRoundTrip | src/utils/sql.js:83-84 | the LIMIT and OFFSET lines, once cleaned, read back as the same values |
| GenRoundTrip.OnConditionsPlain | src/utils/sql.js:50-51 | the ON text of identifier comparisons starts with an identifier character and stays on one line |
| GenRoundTrip.JoinPartText | src/utils/sql.js:49-52 | a join is written `type JOIN table ON a AND b ...` |
| GenRoundTrip.JoinRoundTrip | src/utils/sql.js:47-53 | a written join reads back with the same type and table |
| Store.NewQuery | src/store.js:4-19 | a new query is named `Запрос` and has nothing selected |
| Store.NewCte | src/store.js:21-28 | a new CTE has one empty sub-query, selected |
| Store.SpliceStart | src/store.js:75 | the splice start is within the list; a negative index counts from the end |
| Store.RemoveAt | src/store.js:75 | `splice(index, 1)` removes the element at the start and shifts the later ones down |
| Store.RemoveAtRemovesOne | src/store.js:96 | removal takes out exactly one element, counted with multiplicity |
| Store.Store.constructor | src/store.js:30-36 | the initial store has one empty query, selected, and no CTEs |
| Store.Store.CurrentQuery | src/store.js:39 | the current query is in the main chain |
| Store.Store.CurrentCte | src/store.js:40-42 | a CTE is current exactly when the CTE index is non-negative, and it is a valid CTE of the store |
| Store.Store.CurrentItem | src/store.js:44-50 | the current item is the selected main query, or a sub-query of the selected CTE |
| Store.Store.AllAvailableTables | src/store.js:52-56 | the schema's tables, then the CTE names in order |
| Store.Store.Reset | src/store.js:60-65 | back to the initial store |
| Store.Store.AddQuery | src/store.js:66-72 | appends `Запрос n+1`, selects it and switches to the main chain |
| Store.Store.RemoveQuery | src/store.js:73-79 | with more than one query, removes one and clamps the selection without shifting it |
| Store.Store.SelectQuery | src/store.js:80-85 | selects an existing query and the main chain; other indices change nothing |
| Store.Store.AddCte | src/store.js:88-93 | appends `cte_n+1` with one empty sub-query and selects it |
| Store.Store.RemoveCte | src/store.js:94-100 | removes a CTE; a selection past the end moves to the last CTE or to the main chain |
| Store.Store.SelectCte | src/store.js:101-107 | selects an existing CTE, else the main chain |
| Store.Store.AddCteQuery | src/store.js:110-118 | with a CTE selected, appends `Подзапрос n+1` to it and selects it |
| Store.Store.RemoveCteQuery | src/store.js:119-128 | removes a sub-query of the selected CTE when it has more than one, clamping its selection |
| Store.Store.SelectCteQuery | src/store.js:129-136 | selects an existing sub-query of the selected CTE; otherwise nothing changes |
| Store.DuplicateCteNames | src/store.js:88-100 | add, add, remove the first, add leaves two CTEs both named `cte_2` |

## Left out

- Console logging is not modelled, and neither are the error messages of the
  `throw`s. A failed parse of the whole text is the single `None` result of
  `Parser.ParseCompleteSql`. The inner `try`/`catch` blocks rethrow, and no
  modelled step throws.
- Vue's reactivity and the `schema` object are not modelled.
  `src/utils/schema.js` is represented only by its table names
  (`Store.SchemaTables`).
- The UI-only fields `groupByInput` and `orderByInput` are not part of the
  query model, since no modelled operation reads them.
- JavaScript coercions are not modelled. `Number(limit)` of non-numeric text
  (NaN) and `parseInt` overflow fall outside the model, and so do
  `String(id || '')` on non-string values. Limit and offset are
  `Option<nat>`, and a null identifier becomes the empty string.
- Upper-casing covers ASCII letters only. For the parser this is exact: its
  `/i` patterns compare ASCII keywords, and `toUpperCase` is applied only to
  text those patterns matched.
- SqlGen.FilterText, SqlGen.Connective: the writer upper-cases the filter's
  operator and connective with `toUpperCase`, which also maps non-ASCII
  letters (`ß` becomes `SS`, for example). The model upper-cases ASCII
  letters only, so an operator or connective holding other letters is
  written differently.
- The regular expressions are written as explicit first-match searches over
  the text. Backtracking is modelled only as far as the patterns of the source
  need it.
- SqlGen.BuildSingleSql: the writer's text is stated for every query. The
  full statement written by it and then read by the parser is not proved to
  give the query back. Round trips are proved clause by clause:
  - fields, in three forms;
  - WHERE filters with `=`, `!=`, `>`, `<`, `LIKE`, `IN` or `IS NULL`;
  - ORDER BY items;
  - LIMIT/OFFSET;
  - JOIN kind and table.
- GenRoundTrip.JoinRoundTrip: only the kind and the table are proved to come
  back. The comparisons are proved to be read from the ` AND `-joined ON text,
  not to equal the original comparisons.
- GenRoundTrip.FilterRoundTrip: `>=`, `<=`, `BETWEEN`, `IS NULL` and
  `IS NOT NULL` filters are not covered. `>=` and `<=` do not read back as
  written: they read as `>` and `<` with the value `= literal`
  (`GenRoundTrip.ComparisonWithEqualsNotRoundTrip`). `IS NULL` is covered
  by `GenRoundTrip.IsNullRoundTrip`.
- GenRoundTrip.FilterRoundTrip: the field must be plain
  (`ConditionText.PlainField`). It may not contain blanks, `=`, `!`, `<`,
  `>`, or the letters `l`, `i` or `b` in either case, since an operator
  could start there. This leaves out many ordinary names, such as
  `users.id`, `email`, `orders.total` and `products.price`. The same
  restriction applies to `GenRoundTrip.ComparisonWithEqualsNotRoundTrip`
  and `GenRoundTrip.IsNullRoundTrip`.
- Parser.ParseCtes: the push loop applies the function `CteOf` to each
  definition rather than calling the method `ParseSingleCte`. The two are
  proved equal by `ParseSingleCte`'s contract.
- Store.Store: CTEs are values inside the store's `ctes` sequence. The
  source's in-place update of `store.ctes[i]` becomes a sequence update. Object
  aliasing between a CTE and a reference obtained from `currentCTE()` is not
  modelled.
