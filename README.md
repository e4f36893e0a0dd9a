# pyFramework and colorprinter in Dafny

This project models two files of a small Python utility repository.

`pyFramework.py` is a thin object layer over a MySQL connection:

- A `Database` object holds the driver connection and a registry of `Table` objects.
- It also sets each `Table` as an attribute named after its table.
- It turns method calls into SQL text, sends the text through `sql_query`, and shapes the fetched rows.
- Shaping decodes `bytes` cells and collapses one-row or one-value results.

`printer.py` holds `colorprinter`, which wraps text in ANSI colour escapes (ECMA-48, section 8.3.117, "select graphic rendition"). Only the path that returns the string (`ret=True`) is modelled.

## Modules

- `wrappers.dfy` (`Wrappers`): `Option` and `Result`.
- `py_text.dfy` (`PyText`): the few Python `str` operations the sources use:
  - `' '.join`;
  - the `out += x + sep` loop;
  - `out[:-1]`;
  - ASCII `lower`/`upper`;
  - `in` on strings;
  - `str(int)`.
- `values.dfy` (`Values`): the data that crosses between the wrapper and its driver:
  - cells and rows in dictionary form;
  - the four shapes `sql_query` returns;
  - the loosely typed arguments `query` checks at run time;
  - the exceptions.
- `shaping.dfy` (`Shaping`): what `sql_query` does with a result set:
  - the `maxrows` check;
  - the fetch;
  - decoding `bytes` cells through their `str()` text (CPython's `bytes` repr);
  - collapsing a one-row or one-value result.
- `statements.dfy` (`Statements`):
  - the SQL text `query` builds, as a function (`QueryText`) and as the method with loops that builds it (`BuildQuery`);
  - the `LIMIT` rewrite of `sql_query`;
  - the DDL text of the schema methods.
- `framework.dfy` (`Framework`): the `Table` and `Database` classes.
  - The driver is two parameters:
    - `server` is the answer to a statement, given every earlier call on the driver;
    - `admits` is whether a connection attempt succeeds.
  - The object records every driver call in the field `log`, so each method's contract states both its result and the calls it made.
  - The table registry (`tables`) and the attribute map (`attrs`) are fields the methods update.
  - `InStep` states that the registry and the attribute map agree. Lemmas show how `drop_table`, `make_table` and `move_table` keep or break that agreement.
  - A table's `_cols` is shared state. Each description dict is a `Description` object and each list of them a `DescList` object. A `_cols` that is not a list (a bare dict, `str`, `bytes`, `None` or number left by the result shaping) is a plain value.
  - `join` renames the dicts in place and extends this table's own list in place. The joined table is given that very list, so later joins change the tables it came from.
  - The functions `RenameLoop`, `Renaming`, `Appended` and `JoinWork` state the join over a snapshot of what every dict holds. The methods `RenameItems`, `RenameCols`, `Append`, `JoinCols` and `Table.Join` are proved against them.
- `printer.dfy` (`Printer`):
  - the two colour tables;
  - `colors()` and `backgrounds()`;
  - the 6×6×6 colour cube;
  - `print` with `ret=True`, both as a function (`Render`) and as a method (`Print`) that follows the source's step-by-step string building.

Where the code and the project's documentation disagree, the model follows the code:

- **Spaces are kept.** Clauses are joined with single spaces and nothing is trimmed. `select(fields=['a'])` sends `SELECT a FROM t    ;` (`Statements.BareSelectKeepsSpaces`).
- **An empty result set stays a list.** It comes back as an empty list, not `None` (`Shaping.Collapse`).
- **`delete` sends two spaces:** `DELETE  FROM t`.
- **`distinct` drops clauses.** It computes its `LIMIT` and `ORDER BY` clauses but sends only the `WHERE` clause.
- **Join names lack a space.** An alias is appended as `AS alias`, with no space before `AS`.
- **The `LIMIT` rewrite drops a character.** It removes the last character of the statement, whatever that character is (`Statements.LimitEatsLastCharacter`).

## Model

| member | source | states |
|---|---|---|
| Values.GetFindsKey | pyFramework.py:123 | a row lookup finds a value exactly when the key is one of the row's keys |
| Values.Put | pyFramework.py:202 | assigning a key of a row keeps the row's length; `PutKeepsKeys` and `PutKeepsOthers` state what it keeps and what it changes |
| Values.PutKeepsKeys | pyFramework.py:202 | assigning a key keeps the row's keys and their order, and a present key then holds the new value |
| Values.PutKeepsOthers | pyFramework.py:202 | assigning one key leaves the value of every other key as it was |
| PyText.TerminatedIsJoinThenSep | printer.py:191-195 | appending `x + sep` for each item and then cutting one separator is `sep.join` of the items |
| PyText.TrimmedListAfter | pyFramework.py:486-488 | the comma list built by appending `x + ','` and cutting the last character is the prefix followed by the comma-joined items |
| PyText.Lower | pyFramework.py:449 | `lower()` keeps the length and maps every character |
| PyText.Upper | printer.py:145-147 | `upper()` keeps the length and maps every character |
| PyText.NatToString | printer.py:162 | `str(n)` of a natural number is non-empty and all decimal digits |
| PyText.NatToStringValue | printer.py:162 | `str(n)` spells `n` in decimal: its digits are worth `n`, and it starts with `0` only when it is `0` |
| Shaping.BytesText | pyFramework.py:414-423 | `str(v)` of a `bytes` value is `b`, a quote, the body and the same quote |
| Shaping.Latin1 | pyFramework.py:414-423 | the character text of a byte string has one character per byte, with the byte's code |
| Shaping.DecodeCell | pyFramework.py:414-423 | non-`bytes` cells pass through unchanged, a decoded cell is never `bytes`, and the only failure is `ValueError` from `int(..., 16)` |
| Shaping.DecodeRow | pyFramework.py:415-423 | decoding a row fails only with `ValueError` |
| Shaping.DecodeRows | pyFramework.py:414-423 | decoding keeps the number of rows and fails only with `ValueError` |
| Shaping.Fetch | pyFramework.py:411 | `maxrows=0` fetches every row, otherwise the first `min(maxrows, n)` rows, always a prefix of the result set |
| Shaping.CheckMaxRows | pyFramework.py:391-398 | a missing `maxrows` means 0; a non-`int` or negative `maxrows` raises; an accepted one is the given value |
| Shaping.Collapse | pyFramework.py:426-433 | one row of one column becomes a bare value, one row of several columns a bare row, any other number of rows (none included) a list; expanding the result gives back the rows |
| Shaping.Shape | pyFramework.py:383-433 | a refused statement raises the driver's error; a statement without a result set gives `None`; a bad `maxrows` raises; an empty result set gives an empty list |
| Shaping.DecodeRowSucceeds | pyFramework.py:415-423 | a row decodes when each of its cells does |
| Shaping.DecodeRowPointwise | pyFramework.py:415-423 | a decoded row keeps each key in place and holds the decoded cell under it |
| Shaping.DecodeRowLast | pyFramework.py:415-423 | decoding a row is decoding all but its last cell, then that cell |
| Shaping.DecodeRowKeepsKeys | pyFramework.py:415-423 | decoding keeps the keys in order and leaves non-`bytes` cells as they were |
| Shaping.DecodeRowsSucceeds | pyFramework.py:414-423 | the result set decodes when each row does |
| Shaping.DecodeRowsPointwise | pyFramework.py:414-423 | the decoded result set has the decoded rows in their order |
| Shaping.ReprBodyPlain | pyFramework.py:421 | the repr body of printable bytes without quote or backslash is their character text |
| Shaping.PrintableBytesDecodeToText | pyFramework.py:420-421 | such bytes decode to their character text (`str(v)[2:-1]`) |
| Shaping.PlainBytesText | pyFramework.py:420-421 | their `str()` holds no `\x`, and between the quotes it is their character text |
| Shaping.PlainBytesShape | pyFramework.py:421 | their `str()` is `b'` + text + `'` |
| Shaping.HexPairParses | pyFramework.py:420 | two hex digits parse to the number they write |
| Shaping.ControlByteDecodesToInt | pyFramework.py:420 | a single byte that CPython escapes as `\xHH` decodes to the integer of its code |
| Shaping.EscapedByteText | pyFramework.py:420 | such a byte prints as `b'\xHH'` with its two hex digits |
| Shaping.TwoControlBytesRejected | pyFramework.py:420 | two such bytes make `int(str(v)[4:-1], 16)` raise `ValueError` |
| Shaping.TwoControlBytesText | pyFramework.py:420 | the text that makes it raise, `b'\x01\x02'` |
| Shaping.EscapeIsNoHex | pyFramework.py:420 | the slice `01\x02` is not a hexadecimal literal |
| Shaping.CollapseForgetsColumnName | pyFramework.py:430-431 | a one-row, one-column result gives the same bare value whatever the column is called |
| Statements.TextClause | pyFramework.py:171-174 | an optional clause is empty exactly when its argument is missing or empty, otherwise keyword + argument |
| Statements.LimitClause | pyFramework.py:172 | the `LIMIT` clause is empty exactly when the limit is missing or 0 |
| Statements.SelectExtraLayout | pyFramework.py:171-175 | `select` joins WHERE, LIMIT, ORDER BY and GROUP BY with single spaces, in that order |
| Statements.SelectExtraWithoutClauses | pyFramework.py:175 | with no clauses, `select`'s extra text is three spaces |
| Statements.CheckQuery | pyFramework.py:446-474 | `query` accepts exactly a `str` method among the six verbs (any case), a `str` table, fields of the shape the verb needs, and an `extra` that is `None` or a `str` without `;` |
| Statements.Texts | pyFramework.py:486-487 | one name per listed field |
| Statements.DictKeys | pyFramework.py:495-496 | one column per dictionary entry, once every key is a `str` |
| Statements.QuotedValues | pyFramework.py:499-500 | succeeds exactly when `escape_string` takes every value, with one quoted value per entry |
| Statements.Assignments | pyFramework.py:505-506 | succeeds exactly when every key is a `str` and `escape_string` takes every value, with one assignment per entry |
| Statements.Escaped | pyFramework.py:500 | `escape_string(v).decode()` takes only a `str` or a `bytes` value and raises `TypeError` for any other; for those it gives the escaper's text or `ValueError` |
| Statements.QueryText | pyFramework.py:446-512 | the statement `query` hands on: the first failing check's exception, otherwise a text ending in `;` |
| Statements.BuildQuery | pyFramework.py:446-512 | the method with loops builds exactly the text of the specification function `QueryText` |
| Statements.CheckFields | pyFramework.py:458-468 | the field-shape loop accepts exactly the fields `FieldsFit` describes |
| Statements.BuildBody | pyFramework.py:477-507 | the statement body built step by step is the one the specification states |
| Statements.BuildRead | pyFramework.py:478-491 | the `SELECT`/`COUNT`/`DISTINCT`/`DELETE` body equals its specification |
| Statements.BuildInsert | pyFramework.py:493-501 | the `INSERT` body equals its specification |
| Statements.KeyEach | pyFramework.py:495-496 | the key loop raises `TypeError` on a non-`str` key, otherwise it builds the comma list of the keys |
| Statements.QuoteEach | pyFramework.py:498-500 | the value loop raises the exception of the first value `escape_string(v).decode()` refuses, otherwise it builds the comma list of quoted, escaped values |
| Statements.BuildUpdate | pyFramework.py:503-507 | the `UPDATE` body equals its specification |
| Statements.AssignEach | pyFramework.py:503-507 | the assignment loop raises `TypeError` at the first non-`str` key or the exception of the first value `escape_string` refuses, otherwise it builds the comma list of `k='v'` |
| Statements.AppendEach | pyFramework.py:486-488 | appending `x + ','` per item and cutting the last character gives the prefix and the comma-joined items |
| Statements.UpperVerbs | pyFramework.py:477 | the upper-cased verbs are the SQL keywords |
| Statements.KeysSnoc | pyFramework.py:495-496 | one more `str` key adds one more column |
| Statements.ValueSnoc | pyFramework.py:499-500 | one more value either adds one more quoted value or raises the escaper's exception |
| Statements.AssignmentSnoc | pyFramework.py:505-506 | one more pair either adds one more assignment or raises, `TypeError` first for a non-`str` key |
| Statements.QuotedFailsOn | pyFramework.py:499-500 | once a prefix of the values raises, the whole loop raises the same exception |
| Statements.AssignmentsFailOn | pyFramework.py:505-506 | once a prefix of the pairs raises, the whole loop raises the same exception |
| Statements.QueryFailsIff | pyFramework.py:446-507 | `query` fails exactly when its checks fail, or when an `insert`/`update` has a non-`str` key or a value `escape_string(v).decode()` refuses |
| Statements.VerbCaseIgnored | pyFramework.py:449 | the method name's case does not matter |
| Statements.QueryTerminated | pyFramework.py:470-512 | every accepted query ends in one `;` after the body and the extra text, and the extra text holds no `;` |
| Statements.InsertListsPair | pyFramework.py:493-501 | `insert` lists the k-th key and the k-th escaped, quoted value at the same position |
| Statements.UpdateAssignsEachKey | pyFramework.py:503-507 | `update` assigns each key its escaped, quoted value, in order |
| Statements.BytesValueInserted | pyFramework.py:493-501 | a `bytes` value is escaped like a `str` one: `{'a': b'x'}` inserts `INSERT INTO t(a) VALUES('x');` |
| Statements.NonTextKeyRaises | pyFramework.py:495-506 | a non-`str` key makes an insert raise `TypeError` and an update fail, whatever the values |
| Statements.SelectNamesInOrder | pyFramework.py:483-488 | `select` lists the fields in the given order |
| Statements.BareSelectKeepsSpaces | pyFramework.py:162-175 | `select(['a'])` with no clauses sends `SELECT a FROM t    ;` |
| Statements.SelectOneBody | pyFramework.py:477-491 | the body of a one-field select is `SELECT a FROM t` |
| Statements.DeleteSpacing | pyFramework.py:477-491 | `delete` sends `DELETE  FROM t;`, two spaces |
| Statements.EmptySelectList | pyFramework.py:483-491 | an empty field list gives `SELECT FROM t;` |
| Statements.EmptyInsertDict | pyFramework.py:493-501 | an empty dictionary gives `INSERT INTO t) VALUES);` |
| Statements.EmptyInsertBody | pyFramework.py:493-501 | the body of that insert |
| Statements.EmptyUpdateDict | pyFramework.py:503-507 | an empty dictionary gives `UPDATE t SET;` |
| Statements.EmptyUpdateBody | pyFramework.py:503-507 | the body of that update |
| Statements.WithLimit | pyFramework.py:373-378 | no rewrite for a limit of 0 or less; otherwise the statement ends in `;` |
| Statements.LimitFollowsExtra | pyFramework.py:373-378 | the `LIMIT` clause comes after the extra text of an accepted query, before its `;` |
| Statements.LimitEatsLastCharacter | pyFramework.py:375-378 | the rewrite cuts the last character even when it is not `;` |
| Statements.DefPairs | pyFramework.py:627 | one column definition per field pair |
| Statements.DefPairsClean | pyFramework.py:627 | field pairs without `;` give definitions without `;` |
| Statements.DefsSqlClean | pyFramework.py:622-627 | clean definitions give a definition list without `;` |
| Statements.CreateTableSql | pyFramework.py:616-629 | the `CREATE TABLE` text ends in `;` |
| Statements.CreateTableOneStatement | pyFramework.py:616-629 | a clean name and definitions give a single statement |
| Statements.Terminated1 | pyFramework.py:629 | a body without `;` followed by `;` is one statement |
| Statements.DropTableSql | pyFramework.py:671-674 | a clean name gives one statement |
| Statements.MoveTableSql | pyFramework.py:702 | clean names give one statement |
| Statements.TruncateTableSql | pyFramework.py:734 | a clean name gives one statement |
| Statements.DescribeSql | pyFramework.py:296 | a clean name gives one statement |
| Statements.AddColumnSql | pyFramework.py:751-756 | clean arguments give one statement |
| Statements.DropColumnSql | pyFramework.py:783-784 | clean arguments give one statement |
| Statements.AlterColumnSql | pyFramework.py:809-812 | clean arguments give one statement |
| Statements.AddFkSql | pyFramework.py:832-834 | clean arguments give one statement |
| Statements.DropFkSql | pyFramework.py:844-845 | clean arguments give one statement |
| Statements.AddColumnPlacement | pyFramework.py:751-756 | `after='first'` (any case) gives `FIRST`, another non-empty `after` gives `AFTER col`, a missing or empty one gives neither |
| Statements.AlterColumnWithoutNewName | pyFramework.py:810 | a missing or empty new name renames the column to the table's name |
| Framework.SqlText | pyFramework.py:363-378 | `sql_query` raises `TypeError` exactly when the text, limit or offset has the wrong type; otherwise it sends the `LIMIT`-rewritten text |
| Framework.SqlExchange | pyFramework.py:363-433 | while closed, `sql_query` raises and calls nothing; a bad argument calls nothing; otherwise it sends exactly one statement and shapes the server's answer |
| Framework.QueryExchange | pyFramework.py:446-517 | while closed, `query` raises; a rejected query calls nothing and fails; an accepted one is `sql_query` of its text |
| Framework.QualifyRow | pyFramework.py:202 | prefixing `Field` succeeds exactly when the row has a `str` `Field` |
| Framework.QualifyRows | pyFramework.py:200-203 | a successful rename loop keeps the number of descriptions |
| Framework.Qualifiable | pyFramework.py:201-203 | the loop gets through the first k rows and raises at row k |
| Framework.Qualify | pyFramework.py:200-203 | the rename keeps a list a list and renames it row by row; anything else gets through only when it is empty (`''`, `b''`, `{}`), and is then left as it was |
| Framework.Extend | pyFramework.py:208 | `cols += temp` succeeds exactly when `cols` is a list, or both sides are `str` or both are `bytes`; a list gets the other side's rows appended, a `str` or `bytes` is left equal |
| Framework.JoinName | pyFramework.py:197 | the joined table's name starts with this table's name and ends with the condition |
| Framework.JoinNameGluesAlias | pyFramework.py:197 | `a.join(b, 'x', alias='c')` is named `a INNER JOIN bAS c ON x` |
| Framework.FieldError | pyFramework.py:586-589 | the class-file loop over a list of descriptions raises exactly when one has no `str` `Field`, and only `KeyError` or `TypeError` |
| Framework.ClassFileError | pyFramework.py:586-589 | over a list, the loop raises exactly when a description has no `str` `Field`; any other reply gets through only when iterating it yields nothing, else `TypeError` |
| Framework.ClassFileFailsLikeRename | pyFramework.py:586-589 | the class-file loop over a list raises exactly when, and with the exception that, `join`'s rename loop raises |
| Framework.FieldErrorAt | pyFramework.py:586-589 | its exception is the one of the first description the rename loop cannot rename |
| Framework.WriteClass | pyFramework.py:586-589 | the loop, without the writes, raises exactly what `ClassFileError` states |
| Framework.ClassWritten | pyFramework.py:579-589 | `remake_class` succeeds exactly when its `DESCRIBE` does and the loop gets through the reply, and raises the `DESCRIBE`'s exception first |
| Framework.OneColumnClassFileRaises | pyFramework.py:586-587 | a one-column table's description collapses to a bare dict, and the loop over it raises `TypeError` |
| Framework.FieldCells | pyFramework.py:123 | `col_names` succeeds exactly when every description has a `Field`, and gives those fields in order |
| Framework.ColumnNames | pyFramework.py:119-123 | on a list of descriptions, `col_names` is their `Field` values |
| Framework.Names | pyFramework.py:276 | the names of the registered tables, in order |
| Framework.Reregister | pyFramework.py:651-655 | re-registering raises `TypeError` exactly while the registry is `None`; otherwise the new table is last |
| Framework.Deregister | pyFramework.py:682-685 | removal leaves a `None` registry `None` |
| Framework.RemoveFirst | pyFramework.py:653-654 | removing the first entry of a name removes at most one entry |
| Framework.Unset | pyFramework.py:330-331 | the `delattr` loop raises only `TypeError` or `AttributeError`, `TypeError` first for a non-`str` name |
| Framework.FirstCells | pyFramework.py:294 | on a list of rows, taking the first cells succeeds exactly when no row is empty, with one cell per row |
| Framework.FirstOfRows | pyFramework.py:294 | it gives the first cell of each row, in order |
| Framework.CellTexts | pyFramework.py:294-297 | one name per listed cell, the cell's text |
| Framework.DescribeCalls | pyFramework.py:295-296 | one `DESCRIBE` per listed table |
| Framework.Pick | pyFramework.py:299 | `[getattr(self, i) for i in tbls]` gives the attribute of each name, in order |
| Framework.IndexOf | pyFramework.py:653 | `names.index(name)` is the first position holding `name` |
| Framework.Ignored | pyFramework.py:734 | a statement whose reply is thrown away fails exactly when the statement fails |
| Framework.Value | pyFramework.py:104-109 | what `cols` gives: for a list, the rows its dicts hold now, in order; otherwise the bare value |
| Framework.RenameLoop | pyFramework.py:201-202 | the rename loop keeps every dict, leaves the dicts outside the list as they were, and raises only `KeyError` or `TypeError` |
| Framework.Renaming | pyFramework.py:200-206 | over a list it is the rename loop; a bare value is left as it was and gets through exactly when `Qualify` lets it |
| Framework.Appended | pyFramework.py:208 | `cols += temp` keeps `cols` the same object: a list always succeeds, a bare value with a list raises `TypeError` |
| Framework.JoinWork | pyFramework.py:196-210 | the column work of `join` changes no dict outside the two lists; on success it gives this table's own `_cols`, whose list then holds its dicts followed by `tbl`'s |
| Framework.RenameItems | pyFramework.py:201-202 | the in-place loop raises what `RenameLoop` states and leaves each dict holding the row `RenameLoop` gives it, also part-way |
| Framework.RenameCols | pyFramework.py:200-206 | the rename loop over `_cols` raises what `Renaming` states and leaves the dicts as it states |
| Framework.RenameBoth | pyFramework.py:200-206 | the two loops of `join`: this table's dicts, then `tbl`'s, stopping at the first exception |
| Framework.Append | pyFramework.py:208 | `cols += temp` extends the list in place by `tbl`'s dicts, or rebinds a `str`/`bytes`, as `Appended` states |
| Framework.JoinCols | pyFramework.py:200-208 | renames, then extends, as `JoinWork` states: the exception, the list and the dicts afterwards |
| Framework.NewCols | pyFramework.py:296 | a reply becomes a new `_cols` holding it: a fresh list of fresh dicts for a list of rows |
| Framework.Table.constructor | pyFramework.py:93-96 | a table holds its database, its name and the very `_cols` object it was given |
| Framework.Table.ColNames | pyFramework.py:118-123 | `col_names` succeeds on a list exactly when every dict of it has a `Field`, and gives those fields in order, as the dicts hold them now; on a bare value only an empty one gets through |
| Framework.Table.Count | pyFramework.py:125-131 | `count` is `query('count', ...)` with the `WHERE` clause as extra text |
| Framework.Table.Delete | pyFramework.py:133-139 | `delete` is `query('delete', ...)` with the `WHERE` clause |
| Framework.Table.Distinct | pyFramework.py:141-152 | `distinct` is `query('distinct', ...)` with only the `WHERE` clause |
| Framework.Table.Insert | pyFramework.py:154-160 | `insert` is `query('insert', ...)` with the given extra text |
| Framework.Table.Select | pyFramework.py:162-175 | `select` is `query('select', ...)` with the four clauses joined by spaces |
| Framework.Table.Update | pyFramework.py:177-184 | `update` is `query('update', ...)` with the `WHERE` clause |
| Framework.Table.Join | pyFramework.py:186-210 | an unknown direction returns `None` and changes nothing; otherwise both sides' dicts are renamed in place and this table's own list is extended, as `JoinWork` states, and the new table holds that very list |
| Framework.QualifyRowRenames | pyFramework.py:202 | a renamed description keeps its keys and has `prefix.Field` as its `Field` |
| Framework.QualifyRowsPointwise | pyFramework.py:200-203 | the loop succeeds exactly when every row can be renamed, and then renames each row |
| Framework.QualifyRowsStep | pyFramework.py:200-203 | one more row keeps that characterisation |
| Framework.QualifyRowsFailsAt | pyFramework.py:200-203 | the loop raises the exception of the first row it cannot rename |
| Framework.QualifiableAt | pyFramework.py:200-203 | the number of rows the loop gets through is the index of the first bad row |
| Framework.RenameLoopAt | pyFramework.py:201-202 | over distinct dicts, the loop gets through exactly when every row renames; it renames the dicts before the first bad one, leaves the rest, and raises that one's exception |
| Framework.RenameLoopQualifies | pyFramework.py:200-203 | the in-place loop raises exactly when the value-level rename `QualifyRows` does, and otherwise leaves the dicts holding its rows |
| Framework.RenameLoopRenamesAll | pyFramework.py:201-202 | over distinct dicts that all have a `str` `Field`, the loop gets through and renames every one |
| Framework.Database.constructor | pyFramework.py:248-254 | a new database is closed, has no registry, no table attributes and no driver calls |
| Framework.Database.TableNames | pyFramework.py:272-276 | `table_names` is empty without a registry, otherwise the registered names in order |
| Framework.Database.Batch | pyFramework.py:616-633 | a run of statements stops at the first exception; a successful run sent each statement in order |
| Framework.Database.SqlQuery | pyFramework.py:347-433 | `sql_query` returns and logs what `SqlExchange` states |
| Framework.Database.Run | pyFramework.py:383-384 | an open connection sends the text once |
| Framework.Database.Query | pyFramework.py:435-517 | `query` returns and logs what `QueryExchange` states |
| Framework.Database.Connect | pyFramework.py:279-301 | an open database is left alone; a refused connection raises after one attempt; a successful one lists the tables, describes each, sets each as an attribute and registers them in listed order |
| Framework.Database.LoadTables | pyFramework.py:292-299 | after a successful listing the state is the `Connected` one |
| Framework.Database.DescribeEach | pyFramework.py:295-297 | the loop describes every listed table in turn and sets its attribute; it fails on a non-`str` name |
| Framework.Database.DescribedAll | pyFramework.py:295-297 | once every cell is described, the loop's invariant gives the final state |
| Framework.Database.DescribeNext | pyFramework.py:296-297 | one turn of the loop keeps the invariant |
| Framework.Database.ProgressStep | pyFramework.py:296-297 | the state after one more `DESCRIBE` is one step further along |
| Framework.Database.SetDescribed | pyFramework.py:296-297 | one `DESCRIBE` sets the table's attribute to a table holding the reply |
| Framework.Database.SetTable | pyFramework.py:297 | `setattr(self, n, Table(self, n, cols))`, over fresh description objects holding the reply |
| Framework.Database.DescribesKeys | pyFramework.py:295-297 | every described name has a reply |
| Framework.Database.DescribesSnoc | pyFramework.py:295-297 | describing one more name adds its reply |
| Framework.Database.Commit | pyFramework.py:303-310 | only an open connection is committed |
| Framework.Database.Rollback | pyFramework.py:312-319 | only an open connection is rolled back |
| Framework.Database.Close | pyFramework.py:321-336 | a closed database is left alone; an open one drops its registry, lists the tables, removes their attributes and disconnects, and is closed exactly when nothing raised; no attribute is added or changed |
| Framework.Database.UnsetEach | pyFramework.py:330-331 | `delattr` over the listed names raises exactly as `Unset` states; on success exactly those names are gone |
| Framework.Database.Reconnect | pyFramework.py:338-344 | a successful reconnect leaves the database open; from closed it is `connect`; from open it first lists the tables, disconnects and connects again |
| Framework.Database.RemakeClass | pyFramework.py:569-592 | while open, the table is described once more; it raises that statement's exception or the one the class-file loop raises on the reply |
| Framework.Database.Statement | pyFramework.py:730-735 | a statement whose reply is thrown away is sent only while open |
| Framework.Database.Refresh | pyFramework.py:633-655 | a fresh `DESCRIBE`, then the class-file loop when asked (which may raise), then a new table over fresh description objects set as the attribute and re-registered last, or `TypeError` without a registry |
| Framework.Database.MakeTable | pyFramework.py:596-655 | while closed `make_table` does nothing; otherwise it sends the `CREATE TABLE`, describes the table, runs the class-file loop when `mk_class` is set, and registers the table |
| Framework.Database.DropTable | pyFramework.py:658-686 | while closed nothing; otherwise it sends the `DROP TABLE`, then removes the first registry entry of the name and its attribute |
| Framework.Database.MoveTable | pyFramework.py:689-727 | it renames the table, describes it under its new name, runs the class-file loop when `mv_class` is set, removes the old entry and registers the new one last |
| Framework.Database.TruncateTable | pyFramework.py:730-735 | only while open, one `TRUNCATE TABLE` |
| Framework.Database.AlterThen | pyFramework.py:758-768 | a column change runs its statement; with `alter_class` it describes the table again and raises what the class-file loop raises (a one-column table included); then it describes and re-registers the table |
| Framework.Database.AddColumn | pyFramework.py:737-768 | `add_column` as `AlterThen` of its `ALTER TABLE ... ADD COLUMN` |
| Framework.Database.DropColumn | pyFramework.py:770-793 | `drop_column` as `AlterThen` of its `ALTER TABLE ... DROP COLUMN` |
| Framework.Database.AlterColumn | pyFramework.py:796-821 | `alter_column` as `AlterThen` of its `ALTER TABLE ... CHANGE COLUMN` |
| Framework.Database.AddFk | pyFramework.py:823-835 | only while open, one `ADD FOREIGN KEY` statement |
| Framework.Database.DropFk | pyFramework.py:837-846 | only while open, one `DROP FOREIGN KEY` statement |
| Framework.DescribeCallsSnoc | pyFramework.py:295-296 | one more name adds one more `DESCRIBE` |
| Framework.RemoveFirstSplices | pyFramework.py:653-654 | `del ts[names.index(name)]` removes exactly the entry at the first index of the name |
| Framework.RemoveFirstAt | pyFramework.py:653-654 | the entry removed is the first one of that name |
| Framework.RemoveFirstAbsent | pyFramework.py:653 | without an entry of that name the registry is left as it is |
| Framework.ReregisterKeepsOrder | pyFramework.py:651-655 | re-registering keeps the other tables in their order and puts the new one last |
| Framework.DeregisterRemovesOnlyName | pyFramework.py:682-685 | `drop_table` removes only the first entry of the dropped name |
| Framework.InStepWithout | pyFramework.py:682-685 | removing a name from the registry and from the attributes keeps them in step |
| Framework.InStepAppend | pyFramework.py:651-655 | appending a table whose name is not yet registered, and setting its attribute, keeps them in step |
| Framework.RefreshKeepsInStep | pyFramework.py:651-655 | a refresh under the same name, or under a new one, keeps them in step |
| Framework.MoveOntoRegisteredDuplicates | pyFramework.py:723-727 | moving a table onto a registered name leaves that name twice in the registry |
| Framework.UnsetSucceedsIff | pyFramework.py:330-331 | the `delattr` loop succeeds exactly when every listed name is a `str` with an attribute and no name is listed twice |
| Framework.JoinQualifiesBoth | pyFramework.py:196-210 | a join of two tables whose dicts all have a `str` `Field` leaves this table's list holding its dicts then the other's, each renamed with its own table's name, all other keys and values unchanged |
| Framework.SelfJoinDoubles | pyFramework.py:196-210 | a self-join renames the one list twice and appends it to itself, so every dict is in it twice and its `Field` is `name.name.Field` |
| Framework.ChainedJoinRenamesAgain | pyFramework.py:196-210 | after `j = a.join(b)`, `j.join(c)` renames `b`'s dicts a second time under `j`'s name and appends `c`'s dicts to `a`'s own list |
| Framework.JoinStopsAtLeft | pyFramework.py:200-203 | a description of this table without a `str` `Field` makes `join` raise what the class-file loop would, extend nothing and leave every dict outside this table's list as it was |
| Framework.EmptyTextJoin | pyFramework.py:200-210 | descriptions collapsed to `''` on both sides join to a table over `''`; `''` with `b''` raises `TypeError` |
| Framework.TwiceRenamed | pyFramework.py:202 | two renames compose into one with the doubled prefix |
| Framework.WhereSuffix | pyFramework.py:130-131 | the `WHERE` clause lands in the statement after a space, and holds `;` exactly when the argument does |
| Framework.CountStatement | pyFramework.py:125-131 | `count` sends `SELECT COUNT(*) FROM t[ WHERE w];` and refuses a `where` holding `;` |
| Framework.DeleteStatement | pyFramework.py:133-139 | `delete` sends `DELETE  FROM t[ WHERE w];` and refuses a `where` holding `;` |
| Framework.DistinctIgnoresLimitAndOrder | pyFramework.py:141-152 | `distinct` sends the same statement whatever its limit and order |
| Printer.IntStrings | printer.py:158 | one decimal text per tuple component |
| Printer.Strs | printer.py:191-193 | one `str()` per argument |
| Printer.LookupFindsKey | printer.py:147-148 | a dictionary lookup finds a code exactly when the name is among the dictionary's keys |
| Printer.DictKeysDistinct | printer.py:36-54 | the keys of a dictionary built from pairs have no repeats (the doubled `LIGHTGREY` collapses) |
| Printer.DictKeysArePairKeys | printer.py:13-54 | a name is a key exactly when some pair carries it |
| Printer.LookupKeepsSgr | printer.py:13-54 | a dictionary of escape codes gives escape codes |
| Printer.StyleCodesFromTable | printer.py:32-33 | `colors['BOLD']` and `colors['UNDERLINE']` are `ESC[1m` and `ESC[4m` |
| Printer.Without | printer.py:65 | the filter keeps exactly the names outside the excluded list and never grows the list |
| Printer.Colors | printer.py:60-65 | `colors()` lists exactly the text colour names other than the grey aliases and the styles |
| Printer.Backgrounds | printer.py:67-72 | `backgrounds()` lists exactly the background names other than the grey aliases |
| Printer.WithoutConcat | printer.py:65 | the filter keeps the dictionary's order |
| Printer.LookupAbsent | printer.py:147 | a name no pair carries is not found |
| Printer.LookupLastOccurrence | printer.py:13-54 | the last pair of a name decides its code |
| Printer.LightgrayIsTextColourOnly | printer.py:21 | `LIGHTGRAY` is a text colour, `ESC[37m`, but not a background; `LIGHTGREY` is the background `ESC[47m` |
| Printer.CubeIndex | printer.py:153-156 | `16 + 36r + 6g + b` of a cube colour lies in 16..231 |
| Printer.CubeColour | printer.py:153-156 | every cube index comes from a cube colour |
| Printer.CubeColourOfIndex | printer.py:155-156 | a cube colour is recovered from its index |
| Printer.CubeIndexOfColour | printer.py:155-156 | every index in 16..231 is the index of its colour |
| Printer.ColourCodeIsSgr | printer.py:144-162 | every colour code `print` emits is an escape sequence |
| Printer.UpperOf | printer.py:180 | `clr.upper()` exists exactly for a `str` and for objects that have the method (bytes, `str` subclasses), and on a `str` it is the upper-cased text |
| Printer.BgCode | printer.py:168-184 | no background gives no code; an `int` background with a colour whose `upper()` is `WHITE` gives code 255, with any other `upper()` the int's code or the range assertion; the only exceptions are the assertions' and `AttributeError` for an `int` background with a colour that has no `upper()` |
| Printer.BgCodeIsSgr | printer.py:168-184 | every background code is an escape sequence |
| Printer.SepText | printer.py:133-139 | `sep` with arguments raises `TypeError` exactly when it is not a `str`; without either it is one space |
| Printer.Shift | printer.py:108-115 | without a colour, the first argument becomes the colour and is dropped from the arguments only when more follow |
| Printer.AppendArgs | printer.py:191-193 | the argument loop appends `str(a) + sep` for each argument |
| Printer.PlainText | printer.py:117-126 | with `ignore`, the text is `str(clr)` and the arguments joined by single spaces |
| Printer.JoinArgs | printer.py:191-195 | appending the arguments and cutting one separator appends them joined by the separator |
| Printer.Decorate | printer.py:144-189 | the colour, background and style prefix built step by step is the one `Render` states, and a background error passes through |
| Printer.Render | printer.py:108-201 | nothing to print gives `None`; otherwise the text `print(..., ret=True)` returns, or its exception |
| Printer.Print | printer.py:108-201 | the step-by-step method returns exactly `Render` |
| Printer.StylesPrefix | printer.py:186-189 | putting the style codes in front of a text puts them in front of the whole output |
| Printer.StylesThenColourStartsWithEsc | printer.py:186-198 | a styled output starts with the escape character |
| Printer.ColouredArgs | printer.py:144-198 | a colour with arguments gives styles, colour code, background, the arguments joined by `sep` and the reset code |
| Printer.TextFallback | printer.py:144-167 | a non-colour is printed as an argument: `str(clr)`, `sep` and the rest, with no reset code |
| Printer.BadSeparatorRaises | printer.py:134-137 | a non-`str` `sep` with arguments raises `TypeError` |
| Printer.WhiteIs255 | printer.py:145-146 | `white` in any case is the 256-colour code 255 |
| Printer.LightgrayBackgroundRaises | printer.py:170-172 | the background `lightgray` fails its assertion, though it is a text colour |
| Printer.IntBackgroundNeedsUpper | printer.py:179-181 | an `int` background with a colour that has no `upper()` method raises `AttributeError` |
| Printer.BytesColourTakesIntBackground | printer.py:163-195 | a `bytes` colour has `upper()`, so `print(b'x', 'y', bg=5, ret=True)` returns its text, the background code 5 and `y`, with no reset |
| Printer.Reverse | printer.py:74-84 | `reverse(..., ret=True)` raises whenever `ignore` is not set |
| Printer.ReverseRaises | printer.py:74-84 | without `ignore`, `reverse` always raises: `TypeError` for a bad separator, otherwise `AttributeError` from `(255).upper()` |
| Printer.IgnoreAddsNoEscapes | printer.py:117-126 | with `ignore`, no escape character is added to arguments without one |
| Printer.LoneArgIsColourAndText | printer.py:108-115 | a lone argument without a colour is both colour and text |
| Printer.FirstArgIsColour | printer.py:111-115 | without a colour, the first of several arguments is the colour |
| Printer.LoneWordExamples | printer.py:108-198 | `print(None, 'hi')` gives `hi hi`; `print('hi')` gives `hi ` |

## Left out

- The MySQL driver (`MySQLdb`) is not part of this model. It is the `server` and `admits` parameters, and every call on it is recorded in `log`.
- `MySQLdb.escape_string(v).decode()` is the parameter `esc`, and nothing is assumed about the text it gives. It is consulted only for `str` and `bytes` values, the only ones `escape_string` takes. When it gives nothing, the model raises `ValueError`, standing for a `decode()` that fails.
- The class files under `tables/` are file I/O: the `os.path.isdir`, `os.mkdir`, `open`, `write`, `os.remove` and `os.rename` calls of `remake_class`, `make_table`, `drop_table` and `move_table` are left out. The loop over the description that builds a file's text is modelled, because its exceptions decide the method's outcome. `WriteClass` raises as `for j in cols: ... j['Field']` does, in `remake_class` and under `mk_class` and `mv_class`.
- `make_classes` is left out as a whole, because it is file output and `print` of the table list. Deleting a class file under `rm_class` is left out too.
- `gc.collect()` and `__repr__` are left out, because they have no effect the model can state.
- `MYSQL_TYPES` is left out, because it is a constant documentation table.
- The `cols`, `name` and `tables` properties are the fields themselves.
- `Framework.Table.described` is a ghost record of what a table's `_cols` held when the table was made. The contracts of `Connect`, `LoadTables` and the registry lemmas state what each table was made from, not what a later `join` leaves in its dicts.
- Only dictionary rows (`how=1`) are modelled, because every call inside the repository uses the default. Other `how` values change more than the row type.
  - `how=0` gives tuples, so the `bytes` decoding at pyFramework.py:414 is skipped.
  - Under `how=0`, a one-row, one-column result raises `AttributeError` at pyFramework.py:431, and a one-row result of several columns comes back as a bare tuple.
  - `how=2` gives `table.column` keys.
  - The checks on `how` at pyFramework.py:404-407 are bare strings and raise nothing.
- A driver object that is present but reports itself closed is not modelled. `open` is the single flag `handle`.
- `Framework.Database.Connect` does not separate the partial states after a driver exception inside the describe loop. On failure it states only that new attributes hold new tables.
- `Framework.Database.Reconnect` states only the first calls of the reconnect from an open database. Their outcome depends on `close` and `connect` in turn.
- `Framework.Database.Connect`, `Framework.Database.SetTable` and `Framework.Database.Refresh` keep the tables in `attrs`, a namespace of their own. In Python, `setattr(self, name, Table(...))` (pyFramework.py:297, 651, 724, 765, 790, 818) shares the `Database` object's namespace. So these clashes are not modelled:
  - a table named `open`, `tables` or `table_names` hits a read-only property (pyFramework.py:256-276), and `setattr` raises `AttributeError` after the statements were sent;
  - a table named `_db` replaces the driver handle, so the next `sql_query` fails;
  - a table named like a method (`query`, `close`, …) hides that method from later callers;
  - `close` then runs `delattr` on such names.
- Python's `assert` is modelled as always on. Running with `-O` would skip the background checks.
- In `printer.py`, the path that prints (`ret=False`) is left out, because it is console output. So is the module-level rebinding of `print`.
- Printer tuple colours are modelled with `int` components only.
- Printer `upper()` is modelled as ASCII upper-casing.
- Printer: an object that is not `None`, a `bool`, an `int`, a `str` or a tuple counts as true, and its `str()` is given, together with what its `upper()` compares as, or that it has none.
- Printer: `out[0] is '\033'` is modelled as equality with the escape character.
- `Printer.Colors` and `Printer.Backgrounds` state which names are listed and that the listing keeps the dictionary order. They do not spell out the literal list.
- The other files of the repository (`DataFrameN.py`, `tensorflow.py`, `loglikelihood.py`, `benjamini.py`, `usermgr.py`) are not part of this model.
