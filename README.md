# graphnet SQLite table and index scripts

graphnet converts detector-event files into datasets; its SQLite backend stores
each extracted table in a SQLite database. Before rows are written, the helper
`create_table` builds a `CREATE TABLE` script from the column names of a pandas
data frame, and `attach_index` builds a script that puts an index on a table's
`event_no` column. This project models the text of those two scripts and proves
what it contains.

- `text.dfy` (module `Text`): Python's `sep.join(parts)` as `Join`, with its length
  (`JoinLength`) and where every part and separator lands in the result (`JoinAt`);
  and `SplitLines` (cutting a script at its newlines), used to state which
  statements a script holds and in what order.
- `sqlite_utilities.dfy` (module `SqliteUtilities`): the typing rule of a column
  (`ColumnTypeOf`, `ColumnDecl`), the list of declarations (`Declarations`,
  `ColumnList`), the two scripts (`CreateTableScript`, `AttachIndexScript`), the
  imperative loop of `create_table` (`CreateTable`), and the lemmas about them.

A data frame is represented by the sequence of its column names: `create_table`
reads nothing else of it. Column and table names are strings used as they are; the
source does no quoting or escaping, and neither does the model.

## Model

| member | source | states |
|---|---|---|
| `SqliteUtilities.ColumnTypeOf` | src/graphnet/data/sqlite/sqlite_utilities.py:65-71 | The type chosen for a column: the primary key for `event_no` in an ordinary table, `NOT NULL` for `event_no` in a pulse-map table, `FLOAT` otherwise; its promises are stated by `DeclarationRule` and `DeclFlagSensitive`. |
| `SqliteUtilities.ColumnDecl` | src/graphnet/data/sqlite/sqlite_utilities.py:72 | The declaration `<name> <type>` of one column; `DeclarationRule` gives its three literal forms and `DeclReadsBack` reads the name and type back out of it. |
| `SqliteUtilities.ColumnList` | src/graphnet/data/sqlite/sqlite_utilities.py:73 | The declarations joined with `", "`; `ColumnListLength` and `ColumnListAt` fix its length and where every declaration and separator stands. |
| `SqliteUtilities.CreateTableStatement` | src/graphnet/data/sqlite/sqlite_utilities.py:77 | The statement `CREATE TABLE <name> (<column list>);`; `CreateTableStatementOneLine` states that it is a single line. |
| `SqliteUtilities.CreateTableScript` | src/graphnet/data/sqlite/sqlite_utilities.py:75-79 | The script of `create_table`; `CreateTableScriptFrame`, `CreateTableStatements` and `PulseMapFlagMattersOnlyForEventNo` carry its promises, and `CreateTable` is proved to compute it. |
| `SqliteUtilities.AttachIndexStatement` | src/graphnet/data/sqlite/sqlite_utilities.py:41 | The statement `CREATE INDEX event_no_<table> ON <table> (event_no);`; `AttachIndexStatementOneLine` states that it is a single line. |
| `SqliteUtilities.AttachIndexScript` | src/graphnet/data/sqlite/sqlite_utilities.py:38-44 | The script of `attach_index`, its only model; `AttachIndexScriptFrame` and `AttachIndexStatements` carry its promises. |
| `SqliteUtilities.CreateTable` | src/graphnet/data/sqlite/sqlite_utilities.py:63-79 | The append loop over the columns, the join with `", "` and the script around it produce exactly `CreateTableScript(tableName, columns, isPulseMap)`; the loop keeps the invariant that the list built so far holds the declarations of the columns seen so far, in order. |
| `SqliteUtilities.Declarations` | src/graphnet/data/sqlite/sqlite_utilities.py:63-72 | Exactly one declaration per column, in column order: the result has as many entries as there are columns, and entry `i` is the declaration of column `i`. |
| `SqliteUtilities.DeclarationRule` | src/graphnet/data/sqlite/sqlite_utilities.py:65-72 | `event_no` is declared `event_no INTEGER PRIMARY KEY NOT NULL` in an ordinary table and `event_no NOT NULL` (no primary key) in a pulse-map table; every other column is declared `<name> FLOAT` whatever the flag. |
| `SqliteUtilities.DeclFlagSensitive` | src/graphnet/data/sqlite/sqlite_utilities.py:65-71 | The pulse-map flag changes a column's declaration if and only if the column is `event_no`. |
| `SqliteUtilities.DeclReadsBack` | src/graphnet/data/sqlite/sqlite_utilities.py:72 | A declaration is the column name, one space, and the type text, from which the column's type can be read back. |
| `SqliteUtilities.TypeTextReadsBack` | src/graphnet/data/sqlite/sqlite_utilities.py:67-71 | The three type texts are distinct and readable back: parsing a type text gives its type, and parsing succeeds with a type only on that type's text. |
| `SqliteUtilities.ColumnListLength` | src/graphnet/data/sqlite/sqlite_utilities.py:73 | No columns give the empty column list; `n` columns give the declarations' characters plus `n - 1` separators of two characters. |
| `SqliteUtilities.ColumnListAt` | src/graphnet/data/sqlite/sqlite_utilities.py:72-73 | Declaration `i` stands in the column list right after the declarations of the columns before it and their separators, and is followed by `", "` unless it is the last. |
| `SqliteUtilities.DeclarationsLengthByFlag` | src/graphnet/data/sqlite/sqlite_utilities.py:65-69 | The declarations of an ordinary table are longer than those of a pulse-map table by 20 characters per `event_no` column, and equal in length otherwise. |
| `SqliteUtilities.PulseMapFlagMattersOnlyForEventNo` | src/graphnet/data/sqlite/sqlite_utilities.py:64-79 | The create script is the same for both values of `is_pulse_map` if and only if the columns do not include `event_no`. |
| `SqliteUtilities.CreateTableScriptFrame` | src/graphnet/data/sqlite/sqlite_utilities.py:75-79 | Whatever the inputs, the create script begins with `PRAGMA foreign_keys=off;` and a newline and ends with a newline and `PRAGMA foreign_keys=on;`. |
| `SqliteUtilities.CreateTableStatements` | src/graphnet/data/sqlite/sqlite_utilities.py:75-79 | When no name holds a newline, the create script is exactly three lines: foreign keys off, `CREATE TABLE <name> (<column list>);`, foreign keys on. |
| `SqliteUtilities.CreateTableStatementOneLine` | src/graphnet/data/sqlite/sqlite_utilities.py:77 | The `CREATE TABLE` statement holds no newline when neither the table name nor a column name does. |
| `SqliteUtilities.AttachIndexScriptFrame` | src/graphnet/data/sqlite/sqlite_utilities.py:38-44 | Whatever the table name, the index script begins with foreign keys off and `BEGIN TRANSACTION;` and ends with `COMMIT TRANSACTION;` and foreign keys on. |
| `SqliteUtilities.AttachIndexStatements` | src/graphnet/data/sqlite/sqlite_utilities.py:38-44 | When the table name holds no newline, the index script is exactly five lines in this order: foreign keys off, `BEGIN TRANSACTION;`, `CREATE INDEX event_no_<table> ON <table> (event_no);`, `COMMIT TRANSACTION;`, foreign keys on. |
| `SqliteUtilities.AttachIndexStatementOneLine` | src/graphnet/data/sqlite/sqlite_utilities.py:41 | The `CREATE INDEX` statement holds no newline when the table name does not. |
| `Text.JoinLength` | src/graphnet/data/sqlite/sqlite_utilities.py:73 | Joining `n` parts adds exactly `n - 1` separators to the parts' characters. |
| `Text.JoinAt` | src/graphnet/data/sqlite/sqlite_utilities.py:73 | Part `i` stands in the joined string at its offset (the parts before it, one separator after each), followed by a separator unless it is the last. |

## Left out

- `run_sql_code` and `save_to_sql` (src/graphnet/data/sqlite/sqlite_utilities.py:8-33): they open a database file through sqlite3, sqlalchemy and pandas. The model stops at the script text handed to `run_sql_code`, so `database` and `database_path` are not parameters of the model, and `attach_index` is modelled by the script it builds.
- How SQLite executes the scripts: whether the table or index is really created, duplicate index names, and names that need quoting are outside the model. Names are inserted verbatim.
- The data frame beyond its column names, and the data values, which `create_table` never reads.
- The docstring of `create_table` names parameters `database` and `columns`; the model follows the code instead. `CreateTable` takes `(columns, tableName, isPulseMap)`: the data frame `df` is replaced by its column names, `database_path` is dropped because the script is not run, and `isPulseMap` defaults to false as `is_pulse_map` does.
- `SqliteUtilities.CreateTableStatements`, `SqliteUtilities.AttachIndexStatements`: state the line structure only for names without a newline character, since a newline inside a name would itself split a statement across lines.
- The rest of the conversion pipeline (batching, workers, extractors, merging) and the logging subsystem are not part of this model.
