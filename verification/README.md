# SQL insert-script generator — Dafny model

This project models the conversion engine of `SQLScriptGenerator`, a small web tool. The tool turns an uploaded CSV or spreadsheet into a T-SQL script with one existence-guarded INSERT per row. The engine has three parts:

- **Literal encoder** (`Literal`). It turns one table cell into SQL text. A missing cell (None, NaN, NaT) becomes `NULL`, and that test comes before every type test. A string is quoted with every `'` doubled. An int or float appears as its host text, unquoted. Any other value is quoted, but its quotes are **not** doubled.
- **Column validator** (`Frame.Validate`). It models `validate_dataframe`. If some requested columns are absent, it fails and carries exactly those names. Otherwise it returns the table projected onto the requested columns, in the requested order, with duplicates kept.
- **Statement generator** (`Generator`). It models `generate_insert_scripts`. The output is `BEGIN TRANSACTION;`, then one `IF NOT EXISTS (SELECT 1 FROM t WHERE c1 = l1 AND ...) BEGIN INSERT INTO t (c1, ...) VALUES (l1, ...); IF @@ERROR <> 0 BEGIN ROLLBACK TRANSACTION; THROW; END END` per row in row order, then `COMMIT TRANSACTION;`. The method `GenerateInsertScripts` walks the rows in slices of `batch_size`, just as the source does. It is proved equal to the functional `Script` for every batch size of at least 1. `Convert` is the upload handler's validate-then-generate step.

Files: `wrappers.dfy` (Option/Result), `text.dfy` (join, quote doubling and its inverse), `literal.dfy`, `frame.dfy`, `seqs.dfy` (map and batch slicing), `generator.dfy`.

Behaviour of the code that the model keeps as written:

- "Other" values are quoted without quote doubling (app.py:44), unlike strings (app.py:39). `Literal.OtherLiteralRoundTrip` shows such a literal reads back as its text exactly when the text has no quote.
- There is only the guarded, transaction-wrapped generator; no plain-INSERT variant exists in the code.
- `batch_size` is never checked. A batch size of 0 makes `range` raise (app.py:30), which the model returns as `Failure(ZeroBatchSize)`. A negative batch size makes `range(0, n, batch_size)` empty, so the script holds only the two markers and no row.
- A column requested twice is not rejected by `validate_dataframe`: `df[required_columns]` (app.py:23) then has two columns with that label. For such a label `row[col]` (app.py:35) is a series of cells, and the test `if pd.isna(val)` (app.py:36) raises because a series has no single truth value. The model returns `Failure(AmbiguousColumn(name))` for the first such requested name, as soon as the table has a row and the batch size is positive.

Design risk, kept as written: the existence check compares every requested column with `=`. A row with a missing cell gives `col = NULL`, which is never true in SQL, so the guard does not stop duplicates of such rows. Only the text is modelled, not SQL evaluation.

## Model

| member | source | states |
|---|---|---|
| Literal.IsNa | app.py:36 | definition of the missing-value test: None and pandas NA, a float NaN, and a missing timestamp; `Literal.Encode` tests it before any type |
| Literal.Encode | app.py:34-44 | missing (None/NaN/NaT) gives `NULL` whatever the type; a non-missing string's literal reads back as exactly that string; an int or float gives its host text unquoted; any other value gives its text verbatim between two quotes |
| Literal.StrLiteralBody | app.py:38-40 | a string literal is quote, body, quote; the body is the string with every quote doubled and has no lone quote |
| Literal.StrLiteralInjective | app.py:38-40 | two different strings never encode to the same literal |
| Literal.OtherLiteralRoundTrip | app.py:43-44 | an "other" value's literal reads back as its text if and only if the text has no quote (no doubling on this branch) |
| Literal.EncodeExamples | app.py:36-44 | `O'Brien` gives `'O''Brien'`; `42` gives `42`; `3.5` gives `3.5`; NaN gives `NULL`; the other value `it's` gives `'it's'` |
| Text.Join | app.py:46-49 | definition of `sep.join(parts)`: the parts in order with the separator between neighbours, the empty text for no parts |
| Text.DoubleQuotes | app.py:39 | definition of `replace("'", "''")`; its meaning is stated by `Text.CollapseIffDouble` and `Text.DoubleQuotesFixed` |
| Text.CollapseDoubleQuotes | app.py:39 | reading back a doubled text (each `''` as one quote) recovers the original |
| Text.DoubleQuotesOfCollapse | app.py:39 | a literal body that reads back as `s` is exactly the doubling of `s` |
| Text.CollapseIffDouble | app.py:39 | a body reads back as `s` if and only if it is the doubling of `s` |
| Text.DoubleQuotesFixed | app.py:39 | doubling leaves a text unchanged exactly when it has no quote, and otherwise lengthens it |
| Text.DoubleQuotesExample | app.py:39 | `O'Brien` doubles to `O''Brien` |
| Frame.CellAt | app.py:35 | definition of `row[col]`: the cell under the column; the fallback for an absent column is listed under "Left out" |
| Frame.ProjectRow | app.py:23 | the projected row has exactly the requested columns, each with the source row's cell |
| Frame.FirstAmbiguous | app.py:33-36 | none exactly when no requested name labels two columns; otherwise the first requested name, in request order, that labels two columns, which is where the column loop raises |
| Frame.AmbiguousExample | app.py:20-23 | for a table labelled `a`, `b` with one row, requesting `a` twice passes validation and yields a projection labelled `a`, `a`, on which `a` is the name reported; requesting `a`, `b` passes and reports none |
| Frame.Validate | app.py:18-23 | fails if and only if some requested column is absent, carrying exactly the absent names; on success the columns are the requested list in order with duplicates, the rows are as many as before, each row holds exactly the requested columns with the source cells, and the result is well formed |
| Seqs.SlicesFrom | app.py:30-31 | the slices `xs[i:i+size]` for `i` in `range(start, len, size)` are non-empty, at most `size` long, all but the last exactly `size`, and concatenate to `xs[start..]` |
| Seqs.Batches | app.py:30-31 | the batches of a table cover every row exactly once, in order, and each holds at most `batch_size` rows |
| Generator.Literals | app.py:33-44 | one literal per requested column, in column order, each the encoding of that column's cell |
| Generator.Zip | app.py:46 | the pairs match column `k` with value `k`, one pair per column |
| Generator.Comparisons | app.py:46 | condition `k` is `col_k = lit_k`, one per pair, in order |
| Generator.Guard | app.py:33-49 | the existence check compares the same columns with the same literals, in the same order, as the INSERT's column and VALUES lists; there is one literal per column |
| Generator.Render | app.py:46-51 | definition of the statement text: the existence check over the `col = lit` comparisons joined with ` AND `, then the INSERT with the joined column and VALUES lists, then the rollback tail; `Generator.RenderIsGuarded` states its prefix |
| Generator.Statement | app.py:33-51 | definition of one row's statement as the text of its guarded insert; `Generator.Guard` states how its parts align |
| Generator.RenderIsGuarded | app.py:47-51 | every row statement starts with `IF NOT EXISTS (SELECT 1 FROM `, so it is never a transaction marker |
| Generator.Statements | app.py:30-52 | one statement per row, statement `i` being row `i`'s guarded insert |
| Generator.Script | app.py:27-55 | for N rows: N+2 elements, `BEGIN TRANSACTION;` first, `COMMIT TRANSACTION;` last, row `i`'s statement at position `i+1`, and no marker in between |
| Generator.BatchStatementsFlatten | app.py:30-32 | generating batch after batch gives the statements of all the batches' rows, in order |
| Generator.BatchedScriptIsScript | app.py:27-55 | for every batch size of at least 1, the script built batch by batch (markers around the statements of each slice in turn) is the unbatched script |
| Generator.BatchSizeIrrelevant | app.py:30-32 | any two batch sizes of at least 1 give the same script |
| Generator.BatchedStatements | app.py:30-52 | the outer loop over `range(0, n, size)` produces exactly the unbatched statement sequence |
| Generator.BatchRows | app.py:32-52 | the inner loop produces one statement per row of the batch, in order |
| Generator.GenerateInsertScripts | app.py:25-55 | fails with the zero-step error exactly for a batch size of 0; a negative batch size gives only the two markers; a positive batch size fails exactly when the table has a row and some requested name labels two of its columns, naming the first such requested name, and otherwise gives the full script |
| Generator.StatementsReadOnlyColumns | app.py:34-35 | two row lists that agree, row by row, on the requested columns give the same statements |
| Generator.ProjectionTransparent | app.py:93-96 | generating from the validated projection gives the same statements as generating from the original table with the same columns |
| Generator.Convert | app.py:92-100 | fails with the missing-columns error exactly when a requested column is absent (carrying exactly the absent names), and otherwise with the ambiguous-column error exactly when the table has a row and some name is requested twice (naming the first such name); otherwise the script has one statement per row plus the two markers, and that is the count reported |

## Left out

- Web layer (`create_app`, routes, flash, redirect, templates, the 50-script preview; app.py:78-122): request and response plumbing. The column list's parsing from the form (`split(',')`, `strip`) is also left out. The model takes the list as given.
- `read_file` (app.py:64-76): file upload, `secure_filename` and pandas CSV/Excel parsing are I/O and foreign library calls. The table is an input, so the source-read error has no counterpart here.
- `save_scripts` and `__init__` (app.py:7-16, 57-62): filesystem and environment I/O. The saved file is the statements joined with newlines.
- Number and object text (`str(val)` at app.py:42 and app.py:44): carried as opaque text in the cell. Floats are not modelled.
- pandas dtype behaviour: which host type a cell arrives as is an input tag. That tag decides between the int/float branch and the "other" branch, and pandas' coercion is not modelled. Examples are `numpy.int64` versus `int`, and ints upcast to float by `iterrows`. A Python `bool` is an `int` subclass, so it takes the numeric branch only if tagged `Int`.
- Frame.CellAt: a row that lacks a requested column is read as a missing cell, where the host raises a key error. `GenerateInsertScripts` and `Convert` only accept tables whose rows hold every requested column, so this case never reaches their results.
- Duplicate column labels in the uploaded table: a table is a list of names plus a name-to-cell map per row, so it cannot hold two different cells under one name. Labels repeated by the request itself are modelled (see `Frame.FirstAmbiguous`).
- Identifier safety: table and column names are pasted verbatim, and there is nothing further to state about them.
