# pdo-db SQL statement compiler — a Dafny model

This project models the statement compiler of the `pdo-db` PHP library (`src/SQL`).
The compiler turns builder objects into MySQL text with named placeholders. It covers:

- `SelectStatement`, `InsertStatement`, `UpdateStatement` and `DeleteStatement`;
- the shared `AbstractStatement` base (placeholder table, identifier quoting, sub-select merging, the "frozen once rendered" guard);
- the `WhereTrait` predicate renderer and the `JoinsTrait` join composer;
- the raw-SQL value object `SQL`;
- the retry loop of `TransactionStatement`;
- the read-through cache of `FetchDataTrait`.

Layout:

- `php.dfy` (`Php`) — the PHP primitives the code relies on:
  - truthiness, `sprintf('%d')`, `rtrim`, `implode`, `is_numeric` and `intval` (with fractions and exponents);
  - ordered arrays, i.e. sequences of (key, value) pairs with PHP's assignment `$a[$k] = $v`.
- `sql.dfy` (`RawSql`) — the raw-SQL value object.
- `values.dfy` (`Values`):
  - clause values: `Scalar`, `Raw` (an `SQL` object), `Sub` (a nested select) and `Nested` (a nested array);
  - predicate inputs, join descriptors, and the whole state of a select as a value;
  - size measures for the recursion through sub-selects.
- `render.dfy` (`Render`) — the rendering specification:
  - every `prepare*` helper as a function from the placeholder table (`parameters`, `parameterIndex`) to the produced text and the new table;
  - the `…Ok` predicates, which say which inputs render without a PHP `TypeError` under `strict_types`.
- `compiler.dfy` (`Compiler`) — class `Placeholders`, the placeholder table as mutable state:
  - each rendering helper is a method with the source's loops;
  - each method is proved to produce the text and new state that the `Render` function prescribes.
- `numbering.dfy` (`Numbering`) — the placeholder-numbering theorem. A statement rendered from an empty table holds exactly `:p0 … :p(n-1)`, in order, all distinct, even through sub-selects.
- `counting.dfy` (`Counting`) — how many placeholders a select binds, read off its clauses without rendering (`BoundCount`), and the proof that rendering advances the counter by exactly that number.
- `statements.dfy` (`Statements`):
  - `mergeValues`, the join lists, and the guarded setters;
  - the memoising `__toString` of Select, Update and Delete as classes.
- `insert.dfy` (`Insert`) — the instruction table, column and row flattening, `ON DUPLICATE KEY UPDATE`, and the `InsertStatement` class.
- `transaction.dfy` (`Transaction`) — the retry loop as a method over a trace of driver events, proved equal to a recursive specification `Run`. `RunAsWritten` is the loop as the code has it, where `usleep` throws a TypeError (see Findings).
- `fetch.dfy` (`Fetch`) — the cache policy: a store class, a specification `FetchSpec` with the declared return types checked, and the bypass, hit and miss lemmas.
- `facts.dfy` (`RenderFacts`) — lemmas about pagination, predicate terms, joins, unions, projections, merging and INSERT rows, each stated over the specification functions.

## Model

| member | source | states |
|---|---|---|
| Render.PrepareKey | src/SQL/Statement/AbstractStatement.php:24-33 | the key comes back unchanged exactly when it contains a backtick, `.`, a space or `(`; otherwise it is wrapped in backticks |
| Render.Name | src/SQL/Statement/AbstractStatement.php:48 | a placeholder name starts with `:p` and has at least one digit |
| Render.CreateParameter | src/SQL/Statement/AbstractStatement.php:46-50 | returns `:p<index>`, stores the value under that name and increases the counter by exactly 1 |
| Compiler.Placeholders.CreateParameter | src/SQL/Statement/AbstractStatement.php:46-50 | the method's name and new table are those of `Render.CreateParameter` on the old table |
| Numbering.NameInjective | src/SQL/Statement/AbstractStatement.php:48 | different counters give different placeholder names |
| Numbering.CreateParameterNumbered | src/SQL/Statement/AbstractStatement.php:46-50 | creating a parameter appends one entry named after the counter and keeps the table numbered consecutively |
| Render.PrepareValue | src/SQL/Statement/AbstractStatement.php:35-44 | a raw `SQL` value copies its parameters into the table by name, returns its text and allocates nothing; any other value allocates exactly one placeholder |
| Compiler.Placeholders.CopyParameters | src/SQL/Statement/AbstractStatement.php:38-40 | the loop leaves the table equal to the old one with every entry assigned in order, and the counter unchanged |
| Compiler.Placeholders.PrepareValue | src/SQL/Statement/AbstractStatement.php:35-44 | the method's text and new table are those of `Render.PrepareValue` |
| Render.MergeSubSelect | src/SQL/Statement/AbstractStatement.php:52-62 | the parent's counter never decreases |
| Render.MergedChild | src/SQL/Statement/AbstractStatement.php:54-55 | the child after a merge holds a memoised query, a counter at least the parent's, and its clauses unchanged |
| Compiler.Placeholders.MergeSubSelect | src/SQL/Statement/AbstractStatement.php:52-62 | the method's text and new table are those of `Render.MergeSubSelect`, and the merged child it returns is `MergedChild` |
| RenderFacts.MergeEffects | src/SQL/Statement/AbstractStatement.php:56-60 | the merge step `Render.Merge` (which `MergeSubSelect` applies to the child rendered from its own parameters at the parent's counter): the parent takes over the child's final counter; the text is the child's with every trailing `;` removed and nothing else; each name holds the child's value when the child has one and the parent's otherwise |
| RenderFacts.StaleChildEntryOverwrites | src/SQL/Statement/AbstractStatement.php:57-59 | a child that still holds `:p0` from an earlier render overwrites the parent's own `:p0` when it is merged |
| Numbering.MergeAppendsFreshNames | src/SQL/Statement/AbstractStatement.php:52-62 | merging a child with an empty table keeps the parent's entries as a prefix and appends only names above the parent's counter, none equal to a name the parent already held |
| Php.RTrim | src/SQL/Statement/AbstractStatement.php:56 | the result is a prefix of the input, does not end in the trimmed character, and only that character was removed |
| Php.LookupPutAll | src/SQL/Statement/AbstractStatement.php:57-59 | after assigning entries one by one, a key holds its last assigned value, or its old value when it was not assigned |
| Counting.SelectBindsBoundCount | src/SQL/Statement/SelectStatement.php:72-89 | a select without parameters of its own, rendered from an empty table, binds exactly `BoundCount(s)` values, named `:p0 …` in order; `BoundCount` reads the number off the clauses alone |
| Counting.RenderSelectCount | src/SQL/Statement/SelectStatement.php:77-88 | rendering a select from any table advances the counter by exactly `BoundCount` |
| Counting.MergeSubSelectCount | src/SQL/Statement/AbstractStatement.php:52-62 | merging a sub-select advances the parent's counter by the sub-select's count |
| Counting.FieldTermsCount | src/SQL/Statement/SelectStatement.php:145-163 | a projection advances the counter by the counts of its keyed sub-selects |
| Counting.FieldItemCount | src/SQL/Statement/SelectStatement.php:151-161 | one projected field binds only when it is a sub-select under a non-numeric key |
| Counting.UnionTextsCount | src/SQL/Statement/SelectStatement.php:179-181 | the union members advance the counter by the sum of their counts |
| Counting.PrepareJoinsCount | src/SQL/Clause/JoinsTrait.php:24-31 | joins advance the counter by the counts of their truthy ON predicates, rendered unbound |
| Counting.PrepareWhereCount | src/SQL/Clause/WhereTrait.php:17-31 | a predicate advances the counter by the count of its terms; a raw string binds nothing |
| Counting.WhereTermsCount | src/SQL/Clause/WhereTrait.php:26-29 | the terms advance the counter by the sum of their counts |
| Counting.WhereItemCount | src/SQL/Clause/WhereTrait.php:33-57 | a term binds its IN list's count, its sub-select's count, one for a bound non-null scalar not a string under a numeric key, and nothing otherwise |
| Counting.InListCount | src/SQL/Clause/WhereTrait.php:59-69 | an IN list binds one per element up to its first sub-select, then that sub-select's count |
| Numbering.SelectPlaceholdersDistinct | src/SQL/Statement/SelectStatement.php:72-89 | a select without pre-existing parameters, rendered from an empty table, binds exactly `:p0 … :p(n-1)` in order, with pairwise distinct names |
| Numbering.NumberedUnique | src/SQL/Statement/AbstractStatement.php:46-50 | a consecutively numbered table has pairwise distinct names |
| Numbering.NumberedExtend | src/SQL/Statement/AbstractStatement.php:57-59 | copying a table numbered from the parent's counter into the parent appends it and keeps the numbering consecutive |
| Numbering.RenderSelectNumbered | src/SQL/Statement/SelectStatement.php:72-89 | rendering a select without pre-existing parameters keeps the table consecutively numbered |
| Numbering.PrepareWhereNumbered | src/SQL/Clause/WhereTrait.php:17-31 | rendering a predicate keeps the table consecutively numbered |
| Numbering.PrepareJoinsNumbered | src/SQL/Clause/JoinsTrait.php:24-31 | rendering joins keeps the table consecutively numbered |
| Statements.MergeInto | src/SQL/Clause/WhereTrait.php:71-85 | on a frozen statement the outcome is `Frozen` and nothing is returned for storing; otherwise the loop's list is `MergeValues` of the old list and the input |
| Statements.ValidateRuntime | src/SQL/Statement/AbstractStatement.php:69-74 | a statement with no text yet, or with the falsy text `""` or `"0"`, may still be changed; one holding a text of two or more characters is frozen |
| Statements.MergeValues | src/SQL/Clause/WhereTrait.php:71-86 | the list is either reset to empty or keeps at least its old entries, each key staying in its place (the reset, append and overwrite cases are the lemmas below) |
| Statements.MergeValuesResets | src/SQL/Clause/WhereTrait.php:71-76 | an empty argument (null, `""`, `"0"`, `[]`) resets the list, and the list becomes empty only then |
| Statements.MergeValuesAppends | src/SQL/Clause/WhereTrait.php:77-80 | a non-empty string is appended after the old entries under a fresh integer key |
| Statements.MergeValuesOverwrites | src/SQL/Clause/WhereTrait.php:81-84 | an array overwrites existing keys in place and appends new keys; old keys keep their positions and keys stay unique |
| Php.NextIndex | src/SQL/Clause/WhereTrait.php:78 | the next integer key is above every integer key in the list |
| Php.PutAllUnique | src/SQL/Clause/WhereTrait.php:81-84 | assigning entries keeps the keys of a list unique |
| Statements.SelectStatement.Where | src/SQL/Clause/WhereTrait.php:12-15 | throws (`Frozen`) and changes nothing once rendered; otherwise only `where` becomes `MergeValues(where, input)` |
| Render.PrepareWhere | src/SQL/Clause/WhereTrait.php:17-31 | an empty collection and a falsy string render `''`; a non-empty string renders as prefix plus string; a non-empty collection starts with the prefix |
| Render.WhereTerms | src/SQL/Clause/WhereTrait.php:26-29 | one term per entry; its own contract states only that and that the counter never decreases (the binding of each term is in `Counting.WhereTermsCount` and the `RenderFacts` term lemmas) |
| Render.WhereItem | src/SQL/Clause/WhereTrait.php:33-57 | states only that the counter never decreases; the rule order is stated through `Counting.WhereItemCount`, `RenderFacts.ScalarTermBinding`, `RenderFacts.NullTerm` and `RenderFacts.InTermIgnoresFlag` |
| Render.WhereItemValues | src/SQL/Clause/WhereTrait.php:59-69 | states only that the counter never decreases; the stop at the first sub-select is `Render.InList` and `Compiler.InListStops` |
| Compiler.Placeholders.PrepareWhere | src/SQL/Clause/WhereTrait.php:17-31 | the loop's text and new table are those of `Render.PrepareWhere` |
| Compiler.Placeholders.PrepareWhereItem | src/SQL/Clause/WhereTrait.php:33-57 | the method's text and new table are those of `Render.WhereItem` |
| RenderFacts.ScalarTermBinding | src/SQL/Clause/WhereTrait.php:53-56 | a scalar term binds exactly one placeholder when values are bound, and none otherwise; unbound, the value is written into the text |
| RenderFacts.NullTerm | src/SQL/Clause/WhereTrait.php:47-51 | a null term renders `key IS NULL`, or the bare key when it contains a space, and binds nothing |
| RenderFacts.InTermIgnoresFlag | src/SQL/Clause/WhereTrait.php:35-36 | an IN term renders and allocates the same whether or not values are to be bound |
| Render.InList | src/SQL/Clause/WhereTrait.php:59-69 | the list stops with a sub-select text exactly when the array holds a sub-select |
| Compiler.Placeholders.PrepareWhereItemValues | src/SQL/Clause/WhereTrait.php:59-69 | the loop with its early return produces the text and table of `Render.WhereItemValues` |
| Compiler.InListStops | src/SQL/Clause/WhereTrait.php:62-64 | once a sub-select has been met, later elements change nothing |
| RenderFacts.InListOfScalars | src/SQL/Clause/WhereTrait.php:59-69 | an array of scalars lists the names `:pk … :pk+n-1`, one fresh placeholder per element, and contains no sub-select |
| RenderFacts.InListFirstSub | src/SQL/Clause/WhereTrait.php:62-67 | at the first sub-select the list returns only that sub-select's text; placeholders for the earlier scalars stay allocated |
| Render.PrepareSelfJoins | src/SQL/Clause/JoinsTrait.php:16-22 | the self-join text is empty exactly when the list is empty |
| Render.OptTexts | src/SQL/Clause/JoinsTrait.php:19 | a null self-join implodes as the empty string |
| Render.PrepareJoins | src/SQL/Clause/JoinsTrait.php:24-31 | no joins render `''` and allocate nothing |
| Render.JoinText | src/SQL/Clause/JoinsTrait.php:28 | states only that the counter never decreases; the ON part only for a truthy `on` is `RenderFacts.JoinOnlyWhenTruthy` |
| Compiler.Placeholders.PrepareJoins | src/SQL/Clause/JoinsTrait.php:24-31 | the loop's text and new table are those of `Render.PrepareJoins` |
| Render.JoinOn | src/SQL/Clause/JoinsTrait.php:66-72 | a null ON renders `''` and allocates nothing |
| Compiler.Placeholders.JoinOn | src/SQL/Clause/JoinsTrait.php:66-72 | the method's text and new table are those of `Render.JoinOn`, which renders the predicate with plain scalar values written inline, not bound |
| RenderFacts.JoinsConcat | src/SQL/Clause/JoinsTrait.php:24-31 | the descriptors of a + b render as those of a followed by those of b, rendered from the counter a left, with nothing between them |
| RenderFacts.JoinsConcatTable | src/SQL/Clause/JoinsTrait.php:24-31 | the counter after a + b is the counter after b rendered from where a stopped |
| RenderFacts.JoinsConcatText | src/SQL/Clause/JoinsTrait.php:24-31 | the text of a + b is the text of a followed by the text of b |
| RenderFacts.JoinsSnoc | src/SQL/Clause/JoinsTrait.php:27-29 | appending a descriptor appends its text, rendered from the counter the others left |
| RenderFacts.JoinOnlyWhenTruthy | src/SQL/Clause/JoinsTrait.php:28 | a descriptor is keyword and table, then ` ON <predicate> ` exactly when `on` is truthy (a raw string verbatim), then a space; a falsy `on` renders nothing and binds nothing |
| RenderFacts.UnboundScalarTerms | src/SQL/Clause/WhereTrait.php:17-31 | terms of plain scalars rendered without binding leave the table unchanged, each term rendered on its own |
| RenderFacts.JoinOnScalars | src/SQL/Clause/JoinsTrait.php:66-72 | an ON predicate of plain scalars binds nothing and renders ` ON ` and its terms joined by ` AND ` |
| RenderFacts.JoinOnOneScalar | src/SQL/Clause/JoinsTrait.php:66-72 | `['k' => x]` as ON renders `` ON `k`=x `` with x written out, and the table is unchanged |
| Counting.OnScalarsUnbound | src/SQL/Clause/JoinsTrait.php:71 | a plain scalar in an ON predicate counts for no placeholder, where the same term in WHERE counts for one |
| Statements.JoinList.constructor | src/SQL/Clause/JoinsTrait.php:13-14 | both join lists start empty |
| Statements.JoinList.SelfJoin | src/SQL/Clause/JoinsTrait.php:33-39 | a null empties the list and is then appended; any other join is appended; typed joins are unchanged |
| Statements.JoinList.InnerJoin | src/SQL/Clause/JoinsTrait.php:41-44 | appends exactly one INNER descriptor; self-joins and earlier joins are unchanged |
| Statements.JoinList.LeftJoin | src/SQL/Clause/JoinsTrait.php:46-49 | appends exactly one LEFT descriptor; nothing else changes |
| Statements.JoinList.RightJoin | src/SQL/Clause/JoinsTrait.php:51-54 | appends exactly one RIGHT descriptor; nothing else changes |
| Statements.JoinList.FullJoin | src/SQL/Clause/JoinsTrait.php:56-59 | appends exactly one FULL descriptor; nothing else changes |
| Statements.JoinList.FullOuterJoin | src/SQL/Clause/JoinsTrait.php:61-64 | appends exactly one FULL OUTER descriptor; nothing else changes |
| Statements.SelectStatement.constructor | src/SQL/Statement/SelectStatement.php:41-64 | a new select holds each constructor argument merged into an empty clause, no unions or joins, an empty table and no memo |
| Statements.SelectStatement.ToString | src/SQL/Statement/SelectStatement.php:72-89 | a memoised statement returns its memo and changes nothing; otherwise the text and new table are `RenderSelect` (fixed clause order: fields, INTO, table or unions, self-joins, joins, WHERE, GROUP BY, HAVING, ORDER BY, LIMIT) and the text is memoised, so the statement is frozen |
| Compiler.Placeholders.RenderSelect | src/SQL/Statement/SelectStatement.php:77-88 | the method allocates placeholders clause by clause in the order of `Render.RenderSelect` and produces its text |
| Render.RenderSelect | src/SQL/Statement/SelectStatement.php:77-88 | a rendered select is longer than one character and never lowers the counter |
| Render.SelectText | src/SQL/Statement/SelectStatement.php:72-89 | the text of a select, memoised or rendered, is always truthy, so storing it freezes the statement |
| Statements.RenderSelectFreezes | src/SQL/Statement/AbstractStatement.php:69-74 | a rendered select text is truthy, so once stored it freezes the statement |
| Statements.SelectTextMemo | src/SQL/Statement/SelectStatement.php:74-76 | rendering a select whose memo is its own text returns the same text |
| Statements.SelectStatement.Union | src/SQL/Statement/SelectStatement.php:91-99 | throws once rendered; otherwise a null resets the list and is then appended, and a select is appended |
| Statements.SelectStatement.SetUnionAll | src/SQL/Statement/SelectStatement.php:101-105 | throws once rendered; otherwise only the flag changes |
| Statements.SelectStatement.Fields | src/SQL/Statement/SelectStatement.php:107-110 | throws once rendered; otherwise only the projection is merged |
| Statements.SelectStatement.SetInto | src/SQL/Statement/SelectStatement.php:112-116 | throws once rendered; otherwise only INTO changes |
| Statements.SelectStatement.GroupBy | src/SQL/Statement/SelectStatement.php:118-121 | throws once rendered; otherwise only GROUP BY is merged |
| Statements.SelectStatement.Having | src/SQL/Statement/SelectStatement.php:123-126 | throws once rendered; otherwise only HAVING is merged |
| Statements.SelectStatement.OrderBy | src/SQL/Statement/SelectStatement.php:128-131 | throws once rendered; otherwise only ORDER BY is merged |
| Statements.SelectStatement.SetLimit | src/SQL/Statement/SelectStatement.php:133-137 | throws once rendered; otherwise only the limit changes |
| Statements.SelectStatement.SetPage | src/SQL/Statement/SelectStatement.php:139-143 | throws once rendered; otherwise only the page changes |
| Compiler.Placeholders.PrepareFields | src/SQL/Statement/SelectStatement.php:145-163 | the loop's text and new table are those of `Render.PrepareFields` |
| Render.PrepareFields | src/SQL/Statement/SelectStatement.php:145-163 | states only that the counter never decreases; the items are stated by `RenderFacts.ListedFields`, `RenderFacts.AliasedField` and `Counting.FieldTermsCount` |
| Render.FieldItem | src/SQL/Statement/SelectStatement.php:151-161 | states only that the counter never decreases; the three forms are stated by `RenderFacts.ListedFields`, `RenderFacts.AliasedField` and `Counting.FieldItemCount` |
| Compiler.Placeholders.FieldEntry | src/SQL/Statement/SelectStatement.php:151-161 | one projected entry produces the text and table of `Render.FieldItem` |
| Compiler.Placeholders.StrValue | src/SQL/Statement/SelectStatement.php:152-153 | `strval` of a numeric-keyed field |
| RenderFacts.ListedFields | src/SQL/Statement/SelectStatement.php:151-162 | numeric-keyed fields are emitted as their values, joined by `,`, and bind nothing |
| RenderFacts.AliasedField | src/SQL/Statement/SelectStatement.php:160 | a field under a non-numeric key renders `prepareKey(key) AS prepareKey(value)` and binds nothing |
| RenderFacts.FieldsWithoutSubSelects | src/SQL/Statement/SelectStatement.php:145-163 | a projection without sub-selects leaves the placeholder table unchanged |
| Render.FieldTerms | src/SQL/Statement/SelectStatement.php:151-161 | one projected term per field |
| Render.PrepareInto | src/SQL/Statement/SelectStatement.php:165-171 | INTO is omitted exactly when it is null, `""` or `"0"` |
| Render.PrepareTable | src/SQL/Statement/SelectStatement.php:173-184 | without unions the table is emitted as given and nothing is allocated |
| Compiler.Placeholders.PrepareTable | src/SQL/Statement/SelectStatement.php:173-184 | the loop over the unions produces the text and table of `Render.PrepareTable` |
| Render.UnionTexts | src/SQL/Statement/SelectStatement.php:179-181 | one merged text per union member |
| RenderFacts.UnionSnoc | src/SQL/Statement/SelectStatement.php:179-181 | the last member's text follows the others', merged from the counter they left |
| RenderFacts.UnionPrefixTexts | src/SQL/Statement/SelectStatement.php:179-181 | the texts of a prefix of the members are that prefix of the texts |
| RenderFacts.UnionTextsInOrder | src/SQL/Statement/SelectStatement.php:179-181 | member i is merged from the counter that members 0 … i-1 left |
| RenderFacts.UnionTable | src/SQL/Statement/SelectStatement.php:173-184 | with unions the table is `((m1<sep>m2…)) AS table` over the members merged in order; the separator is UNION ALL exactly when `unionAll` is set, UNION DISTINCT otherwise, and the flag does not change what is bound |
| Render.KeyTexts | src/SQL/Statement/SelectStatement.php:192-194 | each listed value goes through `prepareKey`, in order |
| Compiler.Placeholders.KeyList | src/SQL/Statement/SelectStatement.php:191-195 | the loop produces `Render.KeyTexts` |
| Render.PrepareGroupBy | src/SQL/Statement/SelectStatement.php:186-196 | GROUP BY is omitted exactly when the list is empty |
| Compiler.Placeholders.PrepareGroupBy | src/SQL/Statement/SelectStatement.php:186-196 | the method produces `Render.PrepareGroupBy` |
| Render.PrepareHaving | src/SQL/Statement/SelectStatement.php:198-204 | an empty HAVING is omitted and allocates nothing |
| Compiler.Placeholders.PrepareHaving | src/SQL/Statement/SelectStatement.php:198-204 | the method's text and new table are those of `Render.PrepareHaving` |
| Render.PrepareOrderBy | src/SQL/Statement/SelectStatement.php:206-216 | ORDER BY is omitted exactly when the list is empty |
| Compiler.Placeholders.PrepareOrderBy | src/SQL/Statement/SelectStatement.php:206-216 | the method produces `Render.PrepareOrderBy` |
| Render.PrepareLimit | src/SQL/Statement/SelectStatement.php:218-232 | the clause is empty, or starts with `LIMIT` on a new line and ends with a space |
| RenderFacts.NumericTextLimit | src/SQL/Statement/SelectStatement.php:223-226 | a numeric limit string on a nonzero page is read with `intval` both in the offset and in the count |
| RenderFacts.ExponentLimitExample | src/SQL/Statement/SelectStatement.php:223-226 | limit `"1e3"` on page 2 renders `LIMIT 2000, 1000` |
| Php.IntValOfIntToString | src/SQL/Statement/SelectStatement.php:225 | `intval` reads back every integer `sprintf('%d')` writes |
| Php.NumericIsNonEmpty | src/SQL/Statement/SelectStatement.php:223 | `is_numeric` (`IsNumeric`) never holds for the empty string |
| Php.DigitsAreNumeric | src/SQL/Statement/SelectStatement.php:223 | every non-empty string of digits is numeric, and an unsigned number (exponents: `Php.ExponentIsNumeric`) |
| Php.IntValSign | src/SQL/Statement/SelectStatement.php:225 | `intval` (`IntVal`) is negative only when the string, after leading whitespace, starts with a minus sign |
| Php.IntValDigits | src/SQL/Statement/SelectStatement.php:225 | a string of digits reads as its decimal value (signs, fractions, exponents and trailing text: the lemmas around it) |
| Php.DecimalSpelling | src/SQL/Statement/SelectStatement.php:223 | the decimal spelling of an integer is numeric and reads back as its magnitude, with a `-` exactly when it is negative |
| Php.IntValExponent | src/SQL/Statement/SelectStatement.php:225 | `intval("1e3")` is 1000 |
| Php.IntValFraction | src/SQL/Statement/SelectStatement.php:225 | `intval("-2.9")` is -2: fractions truncate toward zero |
| Php.IntValText | src/SQL/Statement/SelectStatement.php:225 | text after the number is ignored (`"7px"` is 7), and a string without a number is 0 |
| Php.ExponentIsNumeric | src/SQL/Statement/SelectStatement.php:223 | `"1e3"` is a numeric string |
| RenderFacts.LimitOmitted | src/SQL/Statement/SelectStatement.php:218-222 | the LIMIT clause is empty exactly when both limit and page are null |
| RenderFacts.PageWithoutLimit | src/SQL/Statement/SelectStatement.php:227-230 | a page without a limit pages as if the limit were 1000 |
| RenderFacts.PageIgnored | src/SQL/Statement/SelectStatement.php:231 | a non-numeric limit, or a null or zero page, emits the limit alone |
| RenderFacts.LimitAndPageExample | src/SQL/Statement/SelectStatement.php:223-226 | limit 10, page 2 renders `LIMIT 20, 10` |
| RenderFacts.PageAloneExample | src/SQL/Statement/SelectStatement.php:227-230 | page 3 without a limit renders `LIMIT 3000, 1000` |
| RenderFacts.LimitAloneExample | src/SQL/Statement/SelectStatement.php:231 | limit 5 without a page renders `LIMIT 5` |
| Insert.InstructionPriority | src/SQL/Statement/InsertStatement.php:46-64 | the template drops VALUES exactly when there is a select; REPLACE exactly when replace is set; IGNORE exactly when ignore is set without replace; plain INSERT otherwise |
| Insert.GetInstruction | src/SQL/Statement/InsertStatement.php:46-64 | the template drops VALUES exactly when there is a select, and its verb is one of `INSERT INTO`, `INSERT IGNORE INTO` and `REPLACE INTO` |
| Insert.InsertFramed | src/SQL/Statement/InsertStatement.php:33-44 | the text starts with the template's verb and the quoted table and ends with `;` |
| Insert.InsertColumns | src/SQL/Statement/InsertStatement.php:66-76 | the column list is empty (always so for no data) or parenthesised |
| Insert.InsertRows | src/SQL/Statement/InsertStatement.php:78-97 | the counter never decreases, and without a select it advances by exactly one per scalar leaf |
| Insert.InsertStatement.ToString | src/SQL/Statement/InsertStatement.php:33-44 | every call renders afresh from the current table (no memo), allocating values before update values |
| Insert.InsertAllocates | src/SQL/Statement/InsertStatement.php:38-43 | an insert without a select allocates one placeholder per scalar row value plus one per scalar update value |
| Insert.InsertFromSelect | src/SQL/Statement/InsertStatement.php:78-82 | with a source select the values part is exactly the merged select text, and no value is bound |
| Insert.FirstNested | src/SQL/Statement/InsertStatement.php:69-72 | the position of the first nested entry, or the length when there is none |
| Insert.ColumnNames | src/SQL/Statement/InsertStatement.php:73 | one column per entry: the quoted key for a named key, the quoted value for a numeric key |
| Insert.InsertStatement.GetInsertColumns | src/SQL/Statement/InsertStatement.php:66-76 | the loop with its early return produces `InsertColumns` |
| RenderFacts.ColumnsOfNamedRow | src/SQL/Statement/InsertStatement.php:66-76 | a flat row with named keys lists its quoted keys in order, parenthesised |
| RenderFacts.FlatColumns | src/SQL/Statement/InsertStatement.php:75 | without a nested entry the columns are this level's names, parenthesised, or `''` for an empty input |
| RenderFacts.ColumnsOfRows | src/SQL/Statement/InsertStatement.php:70-71 | a list of rows takes its columns from the first row alone |
| Insert.InsertValues | src/SQL/Statement/InsertStatement.php:78-97 | rendering the rows allocates exactly one placeholder per scalar leaf |
| Insert.ValueParts | src/SQL/Statement/InsertStatement.php:85-92 | one part per entry; a level is parenthesised exactly when it holds a non-nested value |
| Insert.InsertStatement.GetInsertValues | src/SQL/Statement/InsertStatement.php:78-97 | the recursive loop produces the text and table of `InsertRows` |
| Insert.FlatRow | src/SQL/Statement/InsertStatement.php:85-95 | a flat row of n scalars renders `(:pk,…,:pk+n-1)` |
| RenderFacts.TwoRows | src/SQL/Statement/InsertStatement.php:85-96 | two rows render as two tuples joined by `,`, the second numbered from where the first stopped |
| Insert.UpdateValues | src/SQL/Statement/InsertStatement.php:99-112 | the ON DUPLICATE KEY UPDATE part is empty exactly when there are no update values |
| Insert.UpdatePairs | src/SQL/Statement/InsertStatement.php:105-110 | one `key=value` pair per update value |
| Insert.UpdateValuesAllocate | src/SQL/Statement/InsertStatement.php:99-112 | update values allocate one placeholder per scalar |
| Insert.InsertStatement.GetUpdateValues | src/SQL/Statement/InsertStatement.php:99-112 | the loop produces the text and table of `UpdateValues` |
| Statements.UpdateStatement.constructor | src/SQL/Statement/UpdateStatement.php:15-24 | a new update holds its table and sets, the merged predicate, empty joins, an empty table and no memo |
| Statements.UpdateStatement.ToString | src/SQL/Statement/UpdateStatement.php:26-38 | a memoised update returns its memo and changes nothing; otherwise the text and new table are `RenderUpdate` (sets allocated before WHERE), which is then memoised |
| Statements.RenderUpdate | src/SQL/Statement/UpdateStatement.php:26-38 | the text starts with `UPDATE` and the quoted table and ends with `;` |
| Statements.UpdateStatement.PrepareSets | src/SQL/Statement/UpdateStatement.php:40-54 | the loop's text is the `,`-joined `SetTerms` and the table is theirs |
| Statements.UpdateStatement.SetEntry | src/SQL/Statement/UpdateStatement.php:43-52 | one SET entry: `key=(sub)` for a select, `key=value` otherwise |
| Statements.SetTerms | src/SQL/Statement/UpdateStatement.php:40-54 | one SET term per entry |
| Statements.UpdateStatement.Where | src/SQL/Clause/WhereTrait.php:12-15 | throws and changes nothing once rendered; otherwise merges the predicate |
| Statements.UpdateWithoutPredicate | src/SQL/Statement/UpdateStatement.php:13-23 | a null or empty `where` renders a statement ending in `WHERE ;` |
| Statements.DeleteStatement.constructor | src/SQL/Statement/DeleteStatement.php:14-22 | a new delete holds its table, the merged predicate, an empty table and no memo |
| Statements.DeleteStatement.ToString | src/SQL/Statement/DeleteStatement.php:24-33 | a memoised delete returns its memo; otherwise `DELETE FROM` quoted table `WHERE` predicate `;` is rendered and memoised |
| Statements.RenderDelete | src/SQL/Statement/DeleteStatement.php:24-33 | the text starts with `DELETE FROM`, the quoted table and `WHERE`, and ends with `;`; the counter never decreases, and nothing is bound without a predicate |
| Statements.DeleteStatement.Where | src/SQL/Clause/WhereTrait.php:12-15 | throws and changes nothing once rendered, as `__toString` sets the memo; otherwise merges the predicate |
| Statements.DeleteWithoutPredicate | src/SQL/Statement/DeleteStatement.php:12-31 | a null or empty `where` renders exactly `DELETE FROM <table> WHERE ;` |
| RawSql.Default | src/SQL/SQL.php:8-10 | a default object has empty text and no parameters |
| RawSql.Get | src/SQL/SQL.php:17-20 | the property name becomes the text, without parameters |
| RawSql.Call | src/SQL/SQL.php:22-25 | the text is `name(` the first argument `)`, without parameters |
| RawSql.CallUsesFirstArgumentOnly | src/SQL/SQL.php:22-25 | arguments after the first are ignored, and a missing or null first argument gives `name()` |
| RawSql.Invoke | src/SQL/SQL.php:27-30 | the result carries exactly the given text and parameters |
| Transaction.Exec | src/SQL/Statement/TransactionStatement.php:23-38 | the loop's ending and trace of driver calls are those of the recursive specification `Run` |
| Transaction.RunEndings | src/SQL/Statement/TransactionStatement.php:23-57 | the documented run (`Run`): `throw null` exactly when no attempt is left and nothing was caught, and never the `usleep` TypeError |
| Transaction.RunAsWritten | src/SQL/Statement/TransactionStatement.php:23-57 | the code as written: the `usleep` TypeError only with a positive sleep, `throw null` exactly as in `Run`, and no sleep ever happens |
| Transaction.RestartClassification | src/SQL/Statement/TransactionStatement.php:43-53 | `restart` (`Retryable`): only a PDOException is retried, and only when its code reads as 40001 or its message asks to restart; one with code 40001 (int or string) or the restart message always is |
| Transaction.Is40001Reads | src/SQL/Statement/TransactionStatement.php:49 | a code matching 40001 (`Is40001`) is the int 40001 or a numeric string that `intval` reads as 40001 |
| Transaction.AttemptCounts | src/SQL/Statement/TransactionStatement.php:27-34 | each attempt begins once, calls the closure once unless beginTransaction threw, commits once when it succeeds or commit threw, and rolls back exactly once when it fails |
| Transaction.EndsAtAttempt | src/SQL/Statement/TransactionStatement.php:26-53 | in the documented run (for the code as written see `AsWrittenWithoutSleep` and `AsWrittenStopsAtRetry`): if attempts before k failed retryably and attempt k succeeds or fails otherwise, then exec returns k's result or rethrows what k threw (its rollBack's exception when that throws, else its failure), after k+1 begins, one rollback per failure and one sleep per retried failure when the sleep is positive; the closure calls and commits are those of attempts i to k (`CallsIn`, `CommitsIn`), and a successful run ends with begin, call, commit |
| Transaction.TraceUpTo | src/SQL/Statement/TransactionStatement.php:26-57 | in the documented run, a run ending at attempt k is the events of the retried attempts before it, each followed by its sleep, then attempt k's own events |
| Transaction.ClosureRetriesThenSuccess | src/SQL/Statement/TransactionStatement.php:26-31 | in the documented run, k transient closure failures and then a success give k+1 begins and k+1 closure calls, then exactly one commit, and the closure's result is returned |
| Transaction.Exhausted | src/SQL/Statement/TransactionStatement.php:26-37 | in the documented run: if every attempt fails retryably, the last failure is thrown after exactly `attemptNo` begins and rollbacks |
| Transaction.NoAttempts | src/SQL/Statement/TransactionStatement.php:26-37 | with `attemptNo <= 0` the closure is never called and `throw null` is reached |
| Transaction.AttemptsBounded | src/SQL/Statement/TransactionStatement.php:26 | there are never more than `attemptNo` begins |
| Transaction.RollbackFailureEnds | src/SQL/Statement/TransactionStatement.php:32-34 | a rollBack that throws ends `exec` with its own exception after that attempt, as written and as intended; a failed beginTransaction, after which PDO has no transaction to roll back, is therefore never retried |
| Transaction.DecimalCodeIs40001 | src/SQL/Statement/TransactionStatement.php:49 | a string code spelling an integer matches 40001 under the loose comparison exactly when that integer is 40001 |
| Transaction.AsWrittenWithoutSleep | src/SQL/Statement/TransactionStatement.php:23-57 | with a sleep of 0 or less the code as written behaves as documented |
| Transaction.AsWrittenStopsAtRetry | src/SQL/Statement/TransactionStatement.php:54-56 | with a positive sleep the code as written ends with a TypeError at the first transient failure, after its rollBack, where the documented run goes on to the next attempt |
| Transaction.DeadlockThenSuccess | src/SQL/Statement/TransactionStatement.php:23-57 | with the default 10 attempts and 0.2 s, a deadlock followed by a success returns the result as documented and ends in a TypeError as written |
| Fetch.Coerce | src/SQL/FetchDataTrait.php:23 | a truthy driver result is returned unchanged (the same `?:` sits at lines 66 and 86) |
| Fetch.CacheId | src/SQL/FetchDataTrait.php:103-106 | the cache key starts with `db.select.` |
| Fetch.SameKeyIffSameHash | src/SQL/FetchDataTrait.php:103-106 | two texts share a cache key exactly when their hashes agree, whatever their bound values |
| Fetch.CacheStore.GetCachedValue | src/SQL/FetchDataTrait.php:112-127 | the stored value when the key is present, otherwise null |
| Fetch.CacheStore.CacheResult | src/SQL/FetchDataTrait.php:133-142 | stores the result under the key with the given TTL and changes no other entry |
| Fetch.Return | src/SQL/FetchDataTrait.php:16-20 | a value leaves a fetch method exactly when it fits the declared return type (`array` for fetchAll, `null|object` for fetchObject, anything for fetch and fetchColumn), and a TypeError is raised otherwise |
| Fetch.Fetch | src/SQL/FetchDataTrait.php:16-98 | the outcome, the number of executions and the store afterwards are those of `FetchSpec` |
| Fetch.FetchSpec | src/SQL/FetchDataTrait.php:16-98 | at most one execution, and none leaves the store as it was; whatever is returned fits the declared return type; only the entry under the statement's cache key may change |
| Fetch.Bypass | src/SQL/FetchDataTrait.php:22-24 | with caching off or no adapter (the same guard sits at lines 44-46, 65-67 and 85-87), the statement executes once and the cache is not touched; falsy results become `[]` for fetchAll and null for fetchObject and fetchColumn |
| Fetch.Hit | src/SQL/FetchDataTrait.php:26-28 | a truthy cached value is returned without executing the statement, whatever the driver would answer, and it is a TypeError exactly when it does not fit the method's return type |
| Fetch.Miss | src/SQL/FetchDataTrait.php:30-34 | on a miss (including a falsy cached value and a null TTL) the statement executes once; a result that fits the return type is stored under the same key and a truthy one is then a hit; one that does not fit is a TypeError and is not stored |
| Fetch.SameKindFits | src/SQL/FetchDataTrait.php:26-34 | a store written by one fetch method only keeps fitting its return type, and that method fails on its return type only when the driver's own answer does not fit |
| Fetch.ObjectReadByFetchAll | src/SQL/FetchDataTrait.php:63-70 | an object cached under a text is returned by fetchObject and is a TypeError for fetchAll, without executing the statement |

## Left out

- `src/DB.php` (PDO connection, prepare, bind, execute, native transaction calls, logging) is not part of this model. The executing driver is a parameter: `driver` in `Fetch` and `attempts` in `Transaction`.
- `Factory.php`, `CommandTrait.php`, `ExecutableTrait.php` and the interfaces are not part of this model. They hold only wiring and declarations.
- `md5` is an uninterpreted function parameter. The PSR-16 and PSR-6 backends are one abstract map store holding each entry with its TTL. Expiry is not modelled.
- The `hasItem` call on a simple cache (`src/SQL/FetchDataTrait.php:116`) is a PSR-6 method on a PSR-16 adapter. The model reads both adapters the same way.
- The delay of `Run` is a `Sleep` event guarded by `0 < sleep` (the sleep is a real); the time it takes is not modelled.
- Transaction.Exec: follows the documented run `Run`, which sleeps and retries; the code as written raises a TypeError in `usleep` instead, which `RunAsWritten` models (see Findings).
- `Transaction.Is40001` compares a numeric code exactly, where PHP compares it as a double: a code string with more than 15 significant digits that rounds to 40001 is not matched.
- Float values accepted by `prepareValue` are left out. Scalars are null, bool, int and string.
- PDO fetch modes, cursor orientation and constructor arguments are left out. Fetched data is an opaque `Data` value with PHP truthiness.
- The `TypeError`s of `usleep`, of a `true` cache TTL and of the fetch methods' return types are modelled as outcomes. The other PHP `TypeError`s under `strict_types` are preconditions (the `…Ok` predicates). They are not modelled as behaviour. They cover:
  - an integer key reaching a `string` parameter (`prepareKey`, `prepareWhereItem`);
  - a null union member;
  - a select passed to `prepareValue`;
  - a sub-select inside INSERT rows.
- A string given to `where()` or `having()` is stored under integer key 0 by `mergeValues`, and rendering it passes that integer key to `prepareWhereItem(string $key)`, which is a TypeError. The model excludes it by precondition. The documented intent of `where()` taking a raw string is to emit that text verbatim; the code as written does not.
- `updateValues` of an insert defaults to null, which `getUpdateValues(array)` rejects. The model takes it as an array (empty by default), as the factory passes.
- The merged child's state (memo, counter, parameters) is returned as a value (`MergedChild`), not written back into a shared child object. Aliasing of one select between two parents is not modelled.
- `Render.MergeSubSelect`, `Render.RenderSelect`, `Render.FieldTerms`, `Render.UnionTexts`, `Render.WhereTerms`, `Render.WhereItem`, `Render.JoinText`, `Render.PrepareFields`, `Render.PrepareHaving` and `Render.FieldItem`: their own contracts state only that the counter never decreases. Their full meaning is in the lemmas about them (`RenderFacts`, `Numbering`, `Counting`) and in the imperative methods proved against them.
- Render.PrepareJoins: its own contract states only the empty case and the counter. The concatenation in order is `RenderFacts.JoinsConcat` and `RenderFacts.JoinsSnoc`; the ON part only for a truthy `on` is `RenderFacts.JoinOnlyWhenTruthy`.
- Render.JoinOn: its own contract states only the null case and the counter. Plain scalars written inline and nothing bound are `RenderFacts.JoinOnScalars`, `RenderFacts.JoinOnOneScalar` and `Counting.OnScalarsUnbound`.
- Render.PrepareTable: its own contract states only the case without unions. The union form, its order and its separator are `RenderFacts.UnionTable` and `RenderFacts.UnionTextsInOrder`.
- `Named("5")` is a key PHP never produces: an array key "5" becomes the integer key 5. The model still treats such a key as numeric, as `is_numeric` does.
- An object passed as a join's `on` (`src/SQL/Clause/JoinsTrait.php:41`) has no `Input` form: only null, a string and an array are modelled.
- `Php.Key`: integer keys are natural numbers. PHP also allows negative integer keys (`[-1 => 'x']`), after which where `$list[]` appends depends on the PHP version; neither is modelled.
- `RawSql.Sql`: its parameters are keyed by strings. A raw `SQL` object with integer-keyed parameters, which `copyParameters` would copy under those integer keys, is not modelled.
- Render.PrepareLimit: the products `intval($limit) * $page` and `$page * 1000` are unbounded integers; PHP turns a product beyond 64 bits into a float, which `sprintf('%d')` then converts back, and that is not modelled.
- `Php.IntVal` reads a numeric prefix exactly, with unbounded integers; PHP goes through a double for fractions and exponents, so a value beyond 2^53 or 64 bits may differ.
- `getParameters` of a statement is the `parameters` field of its placeholder table; there is no separate accessor.

## Findings

| source | as written | input that shows it | evidently intended | confidence | as-written member | corrected member |
|---|---|---|---|---|---|---|
| src/SQL/Statement/TransactionStatement.php:55 | `usleep($this->sleep * 1000000)` passes a float to `usleep(int)` in a `strict_types` file, which throws a TypeError from inside the catch block | the default sleep 0.2 and a first attempt failing with SQLSTATE 40001: `exec` ends with a TypeError after one rollBack (`Transaction.DeadlockThenSuccess`) | sleep, then retry up to `attemptNo` times | not executed | Transaction.RunAsWritten | Transaction.Run |
