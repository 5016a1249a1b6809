/**
 The SQL text that graphnet's SQLite helpers hand to the database:
 the `CREATE TABLE` script of `create_table`, built from a data frame's
 column names, and the `CREATE INDEX` script of `attach_index`.
 A data frame is represented by the sequence of its column names, the only
 part of it the script depends on.
 */
module SqliteUtilities {
  import opened Text

  datatype Option<T> = None | Some(value: T)

  /** The column that links the rows of every table to their event. */
  const EventNo: string := "event_no"

  const ForeignKeysOff: string := "PRAGMA foreign_keys=off;"
  const ForeignKeysOn: string := "PRAGMA foreign_keys=on;"
  const BeginTransaction: string := "BEGIN TRANSACTION;"
  const CommitTransaction: string := "COMMIT TRANSACTION;"

  /** What separates the column declarations of a `CREATE TABLE` statement. */
  const Separator: string := ", "

  /** The three SQL types a column can be given. */
  datatype ColumnType = PrimaryKey | NotNull | Float

  function TypeText(t: ColumnType): (r: string)
  {
    match t
    case PrimaryKey => "INTEGER PRIMARY KEY NOT NULL"
    case NotNull => "NOT NULL"
    case Float => "FLOAT"
  }

  /** Reads a type back from its SQL text. */
  function ParseColumnType(s: string): (r: Option<ColumnType>)
  {
    if s == "INTEGER PRIMARY KEY NOT NULL" then Some(PrimaryKey)
    else if s == "NOT NULL" then Some(NotNull)
    else if s == "FLOAT" then Some(Float)
    else None
  }

  /** `ParseColumnType` is the inverse of `TypeText`: it reads every type back and accepts nothing else. */
  lemma {:induction false} TypeTextReadsBack(t: ColumnType, s: string)
    ensures ParseColumnType(TypeText(t)) == Some(t)
    ensures ParseColumnType(s) == Some(t) <==> TypeText(t) == s
  {
  }

  lemma {:induction false} TypeTextOneLine(t: ColumnType)
    ensures '\n' !in TypeText(t)
  {
  }

  /**
   The type `create_table` gives a column: `event_no` is the primary key of an
   ordinary table, but only required in a pulse-map table, where many rows share
   one event; every other column holds floats.
   */
  function ColumnTypeOf(column: string, isPulseMap: bool): (t: ColumnType)
  {
    if column == EventNo then
      if !isPulseMap then PrimaryKey else NotNull
    else Float
  }

  /** The declaration `<name> <type>` of one column. */
  function ColumnDecl(column: string, isPulseMap: bool): (r: string)
  {
    column + " " + TypeText(ColumnTypeOf(column, isPulseMap))
  }

  /**
   The typing rule of `create_table`: `event_no` is declared the integer primary key
   of an ordinary table and only `NOT NULL` in a pulse-map table; every other column,
   whatever the flag, is declared `FLOAT`.
   */
  lemma {:induction false} DeclarationRule(column: string, isPulseMap: bool)
    ensures column == EventNo && !isPulseMap ==> ColumnDecl(column, isPulseMap) == EventNo + " " + "INTEGER PRIMARY KEY NOT NULL"
    ensures column == EventNo && isPulseMap ==> ColumnDecl(column, isPulseMap) == EventNo + " " + "NOT NULL"
    ensures column != EventNo ==> ColumnDecl(column, isPulseMap) == column + " " + "FLOAT"
  {
  }

  /** The declaration of a column can be read back: its name, a space, and its type. */
  lemma {:induction false} DeclReadsBack(column: string, isPulseMap: bool)
    ensures |column| < |ColumnDecl(column, isPulseMap)|
    ensures ColumnDecl(column, isPulseMap)[..|column|] == column
    ensures ColumnDecl(column, isPulseMap)[|column|] == ' '
    ensures ParseColumnType(ColumnDecl(column, isPulseMap)[|column| + 1..]) == Some(ColumnTypeOf(column, isPulseMap))
  {
    var d := ColumnDecl(column, isPulseMap);
    assert d[|column| + 1..] == TypeText(ColumnTypeOf(column, isPulseMap));
    TypeTextReadsBack(ColumnTypeOf(column, isPulseMap), "");
  }

  /** The pulse-map flag changes a declaration exactly when the column is `event_no`. */
  lemma {:induction false} DeclFlagSensitive(column: string)
    ensures ColumnDecl(column, true) == ColumnDecl(column, false) <==> column != EventNo
  {
    if column == EventNo {
      assert |ColumnDecl(column, true)| != |ColumnDecl(column, false)|;
    }
  }

  /** One declaration per column, in the order of the columns. */
  function Declarations(columns: seq<string>, isPulseMap: bool): (r: seq<string>)
    ensures |r| == |columns|
    ensures forall i :: 0 <= i < |columns| ==> r[i] == ColumnDecl(columns[i], isPulseMap)
  {
    if columns == [] then []
    else [ColumnDecl(columns[0], isPulseMap)] + Declarations(columns[1..], isPulseMap)
  }

  /** The text between the parentheses of the `CREATE TABLE` statement. */
  function ColumnList(columns: seq<string>, isPulseMap: bool): (r: string)
  {
    Join(Declarations(columns, isPulseMap), Separator)
  }

  /** The statement that creates the table with the declared columns. */
  function CreateTableStatement(tableName: string, columns: seq<string>, isPulseMap: bool): (r: string)
  {
    "CREATE TABLE " + tableName + " (" + ColumnList(columns, isPulseMap) + ");"
  }

  /** The script `create_table` runs: the statement with foreign keys switched off around it. */
  function CreateTableScript(tableName: string, columns: seq<string>, isPulseMap: bool): (r: string)
  {
    ForeignKeysOff + "\n" + CreateTableStatement(tableName, columns, isPulseMap) + "\n" + ForeignKeysOn
  }

  /** The statement that creates index `event_no_<table>` on the table's `event_no` column. */
  function AttachIndexStatement(tableName: string): (r: string)
  {
    "CREATE INDEX event_no_" + tableName + " ON " + tableName + " (event_no);"
  }

  /** The script `attach_index` runs: the index creation as one transaction, foreign keys off. */
  function AttachIndexScript(tableName: string): (r: string)
  {
    ForeignKeysOff + "\n" + BeginTransaction + "\n" + AttachIndexStatement(tableName) + "\n"
    + CommitTransaction + "\n" + ForeignKeysOn
  }

  /** The create script switches foreign keys off first and back on last, whatever its inputs. */
  lemma {:induction false} CreateTableScriptFrame(tableName: string, columns: seq<string>, isPulseMap: bool)
    ensures var r := CreateTableScript(tableName, columns, isPulseMap);
      |ForeignKeysOff + "\n"| + |"\n" + ForeignKeysOn| <= |r| &&
      r[..|ForeignKeysOff + "\n"|] == ForeignKeysOff + "\n" &&
      r[|r| - |"\n" + ForeignKeysOn|..] == "\n" + ForeignKeysOn
  {
    var stmt := CreateTableStatement(tableName, columns, isPulseMap);
    FramedBy(ForeignKeysOff + "\n", stmt, "\n" + ForeignKeysOn);
    assert CreateTableScript(tableName, columns, isPulseMap) == (ForeignKeysOff + "\n") + stmt + ("\n" + ForeignKeysOn);
  }

  /**
   The index script switches foreign keys off and begins the transaction first, and
   commits and switches foreign keys back on last, whatever the table name.
   */
  lemma {:induction false} AttachIndexScriptFrame(tableName: string)
    ensures var r := AttachIndexScript(tableName);
      var head := ForeignKeysOff + "\n" + BeginTransaction + "\n";
      var tail := "\n" + CommitTransaction + "\n" + ForeignKeysOn;
      |head| + |tail| <= |r| && r[..|head|] == head && r[|r| - |tail|..] == tail
  {
    var head := ForeignKeysOff + "\n" + BeginTransaction + "\n";
    var tail := "\n" + CommitTransaction + "\n" + ForeignKeysOn;
    var stmt := AttachIndexStatement(tableName);
    FramedBy(head, stmt, tail);
    assert AttachIndexScript(tableName) == head + stmt + tail;
  }

  // ---------------------------------------------------------------------------
  // The column list

  /** Number of times `x` occurs in `xs`. */
  function Count(xs: seq<string>, x: string): (n: nat)
  {
    if xs == [] then 0 else (if xs[0] == x then 1 else 0) + Count(xs[1..], x)
  }

  lemma {:induction false} CountPositive(xs: seq<string>, x: string)
    requires x in xs
    ensures Count(xs, x) > 0
  {
    if xs[0] != x {
      assert x in xs[1..];
      CountPositive(xs[1..], x);
    }
  }

  /** `n` columns give `n - 1` separators in the column list; no columns give the empty list. */
  lemma {:induction false} ColumnListLength(columns: seq<string>, isPulseMap: bool)
    ensures columns == [] ==> ColumnList(columns, isPulseMap) == ""
    ensures columns != [] ==>
      |ColumnList(columns, isPulseMap)| == TotalLength(Declarations(columns, isPulseMap)) + 2 * (|columns| - 1)
  {
    if columns != [] {
      JoinLength(Declarations(columns, isPulseMap), Separator);
    }
  }

  /**
   Of the declarations `ds` of the columns, declaration `i` stands at its place in the
   column list, after the declarations before it, and is followed by `", "` unless it
   is the last. The declarations are passed in as `ds`, pinned by the first requires,
   only to keep the proof cheap: stated with `Declarations(columns, isPulseMap)` written
   out in every clause, the same lemma costs the verifier many times more.
   */
  lemma {:induction false} ColumnListAt(columns: seq<string>, isPulseMap: bool, ds: seq<string>, i: nat)
    requires ds == Declarations(columns, isPulseMap)
    requires i < |ds|
    ensures var o := Offset(ds, Separator, i);
      o + |ds[i]| <= |ColumnList(columns, isPulseMap)| &&
      ColumnList(columns, isPulseMap)[o..o + |ds[i]|] == ds[i]
    ensures var e := Offset(ds, Separator, i) + |ds[i]|;
      i + 1 < |ds| ==>
        e + |Separator| <= |ColumnList(columns, isPulseMap)| &&
        ColumnList(columns, isPulseMap)[e..e + |Separator|] == Separator
  {
    JoinAt(ds, Separator, i);
  }

  /** Declaring `event_no` as the primary key costs 20 more characters than declaring it only `NOT NULL`. */
  lemma {:induction false} DeclarationsLengthByFlag(columns: seq<string>)
    ensures TotalLength(Declarations(columns, false))
         == TotalLength(Declarations(columns, true)) + 20 * Count(columns, EventNo)
  {
    if columns != [] {
      DeclarationsLengthByFlag(columns[1..]);
      assert Declarations(columns, false)[1..] == Declarations(columns[1..], false);
      assert Declarations(columns, true)[1..] == Declarations(columns[1..], true);
    }
  }

  /**
   `is_pulse_map` only matters through `event_no`: the two flag values give the same
   script exactly when the columns do not include `event_no`.
   */
  lemma {:induction false} PulseMapFlagMattersOnlyForEventNo(tableName: string, columns: seq<string>)
    ensures CreateTableScript(tableName, columns, true) == CreateTableScript(tableName, columns, false)
        <==> EventNo !in columns
  {
    if EventNo in columns {
      CountPositive(columns, EventNo);
      DeclarationsLengthByFlag(columns);
      ColumnListLength(columns, true);
      ColumnListLength(columns, false);
      assert |ColumnList(columns, true)| < |ColumnList(columns, false)|;
    } else {
      assert Declarations(columns, true) == Declarations(columns, false);
    }
  }

  // ---------------------------------------------------------------------------
  // The statements of the scripts

  lemma {:induction false} ColumnListOneLine(columns: seq<string>, isPulseMap: bool)
    requires forall k :: 0 <= k < |columns| ==> '\n' !in columns[k]
    ensures '\n' !in ColumnList(columns, isPulseMap)
  {
    var ds := Declarations(columns, isPulseMap);
    forall k | 0 <= k < |ds|
      ensures '\n' !in ds[k]
    {
      var t := TypeText(ColumnTypeOf(columns[k], isPulseMap));
      TypeTextOneLine(ColumnTypeOf(columns[k], isPulseMap));
      assert ds[k] == columns[k] + " " + t;
    }
    assert '\n' !in Separator;
    JoinAvoids(ds, Separator, '\n');
  }

  /**
   When neither the table name nor a column name holds a newline, the create script
   is three lines: foreign keys off, the `CREATE TABLE` statement, foreign keys on.
   */
  lemma {:induction false} CreateTableStatements(tableName: string, columns: seq<string>, isPulseMap: bool)
    requires '\n' !in tableName
    requires forall k :: 0 <= k < |columns| ==> '\n' !in columns[k]
    ensures SplitLines(CreateTableScript(tableName, columns, isPulseMap))
         == [ForeignKeysOff, CreateTableStatement(tableName, columns, isPulseMap), ForeignKeysOn]
  {
    CreateTableStatementOneLine(tableName, columns, isPulseMap);
    PragmasOneLine();
    SplitThreeLines(ForeignKeysOff, CreateTableStatement(tableName, columns, isPulseMap), ForeignKeysOn);
  }

  lemma {:induction false} CreateTableStatementOneLine(tableName: string, columns: seq<string>, isPulseMap: bool)
    requires '\n' !in tableName
    requires forall k :: 0 <= k < |columns| ==> '\n' !in columns[k]
    ensures '\n' !in CreateTableStatement(tableName, columns, isPulseMap)
  {
    ColumnListOneLine(columns, isPulseMap);
    assert '\n' !in "CREATE TABLE ";
    assert '\n' !in " (";
    assert '\n' !in ");";
  }

  /**
   When the table name holds no newline, the index script is five lines: foreign keys
   off, begin the transaction, create index `event_no_<table>` on the table's
   `event_no` column, commit, foreign keys on.
   */
  lemma {:induction false} AttachIndexStatements(tableName: string)
    requires '\n' !in tableName
    ensures SplitLines(AttachIndexScript(tableName))
         == [ForeignKeysOff, BeginTransaction, AttachIndexStatement(tableName), CommitTransaction, ForeignKeysOn]
  {
    var lines := [ForeignKeysOff, BeginTransaction, AttachIndexStatement(tableName), CommitTransaction, ForeignKeysOn];
    AttachIndexStatementOneLine(tableName);
    PragmasOneLine();
    JoinFiveLines(ForeignKeysOff, BeginTransaction, AttachIndexStatement(tableName), CommitTransaction, ForeignKeysOn);
    SplitJoinedLines(lines);
  }

  lemma {:induction false} AttachIndexStatementOneLine(tableName: string)
    requires '\n' !in tableName
    ensures '\n' !in AttachIndexStatement(tableName)
  {
    assert '\n' !in "CREATE INDEX event_no_";
    assert '\n' !in " ON ";
    assert '\n' !in " (event_no);";
  }

  lemma {:induction false} PragmasOneLine()
    ensures '\n' !in ForeignKeysOff && '\n' !in ForeignKeysOn
    ensures '\n' !in BeginTransaction && '\n' !in CommitTransaction
  {
  }

  // ---------------------------------------------------------------------------
  // create_table

  /**
   Builds the `CREATE TABLE` script the way `create_table` does: one declaration per
   column, appended in column order, then joined with `", "`.
   The data frame is given by its column names; the database path and the call that
   runs the script are not modelled. As in the source, `isPulseMap` defaults to false.
   */
  method CreateTable(columns: seq<string>, tableName: string, isPulseMap: bool := false) returns (code: string)
    ensures code == CreateTableScript(tableName, columns, isPulseMap)
  {
    var queryColumns: seq<string> := [];
    for i := 0 to |columns|
      invariant |queryColumns| == i
      invariant forall k :: 0 <= k < i ==> queryColumns[k] == ColumnDecl(columns[k], isPulseMap)
    {
      var column := columns[i];
      var type_: string;
      if column == EventNo {
        if !isPulseMap {
          type_ := "INTEGER PRIMARY KEY NOT NULL";
        } else {
          type_ := "NOT NULL";
        }
      } else {
        type_ := "FLOAT";
      }
      assert type_ == TypeText(ColumnTypeOf(column, isPulseMap));
      queryColumns := queryColumns + [column + " " + type_];
    }
    assert queryColumns == Declarations(columns, isPulseMap);
    var joined := Join(queryColumns, Separator);
    code := ForeignKeysOff + "\n" + ("CREATE TABLE " + tableName + " (" + joined + ");") + "\n" + ForeignKeysOn;
  }
}
