/** `generate_insert_scripts`: one transaction holding one existence-guarded
    INSERT per row, and the conversion that validates the columns first. */
module Generator {
  import opened Wrappers
  import opened Text
  import opened Literal
  import opened Frame
  import opened Seqs

  const Begin: string := "BEGIN TRANSACTION;"
  const Commit: string := "COMMIT TRANSACTION;"
  const GuardHead: string := "IF NOT EXISTS (SELECT 1 FROM "
  const ErrorTail: string := "IF @@ERROR <> 0 BEGIN ROLLBACK TRANSACTION; THROW; END END"

  /** The batch size the upload form's conversion uses (the parameter's
      default). */
  const DefaultBatchSize: int := 1000

  /** One guarded insert before it is written out: the target table, the
      INSERT's column list, its VALUES list, and the `column = literal` pairs
      of the existence check. */
  datatype GuardedInsert = GuardedInsert(
    table: string,
    columns: seq<string>,
    values: seq<string>,
    condition: seq<(string, string)>)

  /** The literal of each requested column of the row, in column order. */
  function Literals(cols: seq<string>, row: Row): (lits: seq<string>)
    ensures |lits| == |cols|
    ensures forall k :: 0 <= k < |cols| ==> lits[k] == Encode(CellAt(row, cols[k]))
  {
    if cols == [] then [] else [Encode(CellAt(row, cols[0]))] + Literals(cols[1..], row)
  }

  /** `zip(columns, values)`. */
  function Zip(cols: seq<string>, vals: seq<string>): (r: seq<(string, string)>)
    requires |cols| == |vals|
    ensures |r| == |cols|
    ensures forall k :: 0 <= k < |r| ==> r[k] == (cols[k], vals[k])
  {
    if cols == [] then [] else [(cols[0], vals[0])] + Zip(cols[1..], vals[1..])
  }

  /** The guarded insert for one row: the existence check tests the same
      columns against the same literals, in the same order, as the INSERT
      writes, one literal per column. */
  function Guard(table: string, cols: seq<string>, row: Row): (g: GuardedInsert)
    ensures g.table == table && g.columns == cols
    ensures |g.values| == |cols| && |g.condition| == |cols|
    ensures forall k :: 0 <= k < |cols| ==>
              g.values[k] == Encode(CellAt(row, cols[k])) && g.condition[k] == (cols[k], g.values[k])
  {
    var lits := Literals(cols, row);
    GuardedInsert(table, cols, lits, Zip(cols, lits))
  }

  /** `f"{col} = {val}"` for each pair of the existence check. */
  function Comparisons(condition: seq<(string, string)>): (r: seq<string>)
    ensures |r| == |condition|
    ensures forall k :: 0 <= k < |r| ==> r[k] == condition[k].0 + " = " + condition[k].1
  {
    if condition == [] then []
    else [condition[0].0 + " = " + condition[0].1] + Comparisons(condition[1..])
  }

  /** The statement text of a guarded insert. */
  function Render(g: GuardedInsert): string
  {
    GuardHead + g.table + " WHERE " + Join(" AND ", Comparisons(g.condition)) + ") "
    + "BEGIN INSERT INTO " + g.table + " (" + Join(", ", g.columns) + ") VALUES ("
    + Join(", ", g.values) + "); "
    + ErrorTail
  }

  /** Every statement text starts with the existence check, so it is never
      one of the two transaction markers. */
  lemma RenderIsGuarded(g: GuardedInsert)
    ensures |Render(g)| > |GuardHead| && Render(g)[..|GuardHead|] == GuardHead
    ensures Render(g) != Begin && Render(g) != Commit
  {
    var r := Render(g);
    assert r == GuardHead + (r[|GuardHead|..]);
    assert r[0] == 'I';
    assert Begin[0] == 'B' && Commit[0] == 'C';
  }

  /** The statement for one row. */
  function Statement(table: string, cols: seq<string>, row: Row): string
  {
    Render(Guard(table, cols, row))
  }

  /** One statement per row, in row order. */
  function Statements(table: string, cols: seq<string>, rows: seq<Row>): (r: seq<string>)
    ensures |r| == |rows|
    ensures forall i :: 0 <= i < |rows| ==> r[i] == Statement(table, cols, rows[i])
  {
    MapSeq(row => Statement(table, cols, row), rows)
  }

  /** The whole script: exactly one BEGIN marker first, exactly one COMMIT
      marker last, and between them the statement of row `i` at position
      `i + 1`. */
  function Script(table: string, cols: seq<string>, rows: seq<Row>): (r: seq<string>)
    ensures |r| == |rows| + 2
    ensures r[0] == Begin && r[|r| - 1] == Commit
    ensures forall i :: 0 <= i < |rows| ==> r[i + 1] == Statement(table, cols, rows[i])
    ensures forall i :: 0 < i < |r| - 1 ==> r[i] != Begin && r[i] != Commit
  {
    var body := Statements(table, cols, rows);
    forall i | 0 <= i < |rows|
      ensures body[i] != Begin && body[i] != Commit
    {
      RenderIsGuarded(Guard(table, cols, rows[i]));
    }
    [Begin] + body + [Commit]
  }

  /** The statements of each batch, one batch after the other. */
  function BatchStatements(table: string, cols: seq<string>, bs: seq<seq<Row>>): seq<string>
  {
    if bs == [] then []
    else Statements(table, cols, bs[0]) + BatchStatements(table, cols, bs[1..])
  }

  /** Statements of consecutive rows are consecutive statements. */
  lemma {:induction false} StatementsAppend(table: string, cols: seq<string>, a: seq<Row>, b: seq<Row>)
    ensures Statements(table, cols, a + b) == Statements(table, cols, a) + Statements(table, cols, b)
  {
    MapSeqAppend(row => Statement(table, cols, row), a, b);
  }

  /** Generating batch by batch gives the statements of all the batch rows,
      in order. */
  lemma {:induction false} BatchStatementsFlatten(table: string, cols: seq<string>, bs: seq<seq<Row>>)
    ensures BatchStatements(table, cols, bs) == Statements(table, cols, Flatten(bs))
  {
    if bs != [] {
      BatchStatementsFlatten(table, cols, bs[1..]);
      StatementsAppend(table, cols, bs[0], Flatten(bs[1..]));
    }
  }

  /** The script as the batched loops assemble it: the BEGIN marker, the
      statements of each slice `rows[i:i+size]` in turn, the COMMIT marker. */
  function BatchedScript(table: string, cols: seq<string>, rows: seq<Row>, size: nat): seq<string>
    requires size >= 1
  {
    [Begin] + BatchStatements(table, cols, Batches(rows, size)) + [Commit]
  }

  /** Building the script batch by batch gives the unbatched script, for
      every batch size of at least 1. */
  lemma {:induction false} BatchedScriptIsScript(table: string, cols: seq<string>, rows: seq<Row>, size: nat)
    requires size >= 1
    ensures BatchedScript(table, cols, rows, size) == Script(table, cols, rows)
  {
    BatchStatementsFlatten(table, cols, Batches(rows, size));
  }

  /** Batch size never shows in the output: any two batch sizes of at least
      1 give the same script. */
  lemma {:induction false} BatchSizeIrrelevant(table: string, cols: seq<string>, rows: seq<Row>, size1: nat, size2: nat)
    requires size1 >= 1 && size2 >= 1
    ensures BatchedScript(table, cols, rows, size1) == BatchedScript(table, cols, rows, size2)
  {
    BatchedScriptIsScript(table, cols, rows, size1);
    BatchedScriptIsScript(table, cols, rows, size2);
  }

  /** The outer loop of `generate_insert_scripts`: it walks the batch
      starts `range(0, len(rows), size)` and hands each slice
      `rows[i:i+size]` to the inner loop. The statements come out as if the
      rows had not been batched at all. */
  method BatchedStatements(rows: seq<Row>, tableName: string, columns: seq<string>, size: int)
    returns (out: seq<string>)
    requires size >= 1
    ensures out == Statements(tableName, columns, rows)
  {
    out := [];
    var n := |rows|;
    var i := 0;
    var done := 0;
    while i < n
      invariant 0 <= i && done == Min(i, n)
      invariant out == Statements(tableName, columns, rows[..done])
      decreases n - i
    {
      var stop := Min(i + size, n);
      var more := BatchRows(rows[i..stop], tableName, columns);
      assert rows[..stop] == rows[..i] + rows[i..stop];
      StatementsAppend(tableName, columns, rows[..i], rows[i..stop]);
      out := out + more;
      i, done := i + size, stop;
    }
    assert rows[..done] == rows;
  }

  /** The inner loop of `generate_insert_scripts`: one statement per row of
      the batch, in order. */
  method BatchRows(batch: seq<Row>, tableName: string, columns: seq<string>)
    returns (out: seq<string>)
    ensures out == Statements(tableName, columns, batch)
  {
    out := [];
    var j := 0;
    while j < |batch|
      invariant 0 <= j <= |batch|
      invariant out == Statements(tableName, columns, batch[..j])
    {
      assert batch[..j + 1] == batch[..j] + [batch[j]];
      StatementsAppend(tableName, columns, batch[..j], [batch[j]]);
      var stmt := Statement(tableName, columns, batch[j]);
      assert Statements(tableName, columns, [batch[j]]) == [stmt];
      out := out + [stmt];
      j := j + 1;
    }
    assert batch[..j] == batch;
  }

  /** `generate_insert_scripts(df, table_name, columns, batch_size)`, whose
      caller hands it a frame holding every requested column. A batch size
      of 0 is refused by `range`; a negative one makes
      `range(0, n, batch_size)` empty, so only the two markers are produced
      whatever the table holds. With a positive one, the first row's column
      loop raises at the first requested name that labels two columns of the
      frame (its cell is a series, whose missing-value test has no single
      truth value); with no such name, or no row to reach it, the result is
      the script of the whole table. */
  method GenerateInsertScripts(df: Table, tableName: string, columns: seq<string>, batchSize: int)
    returns (r: Result<seq<string>, Error>)
    requires Covers(df.rows, columns)
    ensures r.Failure? <==>
              || batchSize == 0
              || (batchSize >= 1 && |df.rows| > 0 && exists k :: 0 <= k < |columns| && Ambiguous(df.columns, columns[k]))
    ensures batchSize == 0 ==> r == Failure(ZeroBatchSize)
    ensures r.Failure? && batchSize != 0 ==>
              && r.error.AmbiguousColumn?
              && exists k :: 0 <= k < |columns| && columns[k] == r.error.name && Ambiguous(df.columns, r.error.name)
                             && forall j :: 0 <= j < k ==> !Ambiguous(df.columns, columns[j])
    ensures batchSize >= 1 && r.Success? ==> r.value == Script(tableName, columns, df.rows)
    ensures batchSize < 0 ==> r == Success([Begin, Commit])
  {
    if batchSize == 0 {
      return Failure(ZeroBatchSize);
    }
    if batchSize < 0 {
      return Success([Begin, Commit]);
    }
    if |df.rows| > 0 {
      var clash := FirstAmbiguous(df.columns, columns);
      if clash.Some? {
        return Failure(AmbiguousColumn(clash.value));
      }
    }
    var body := BatchedStatements(df.rows, tableName, columns, batchSize);
    return Success([Begin] + body + [Commit]);
  }

  /** The statements read only the requested columns: two row lists that
      agree on those columns, row by row, give the same statements. */
  lemma {:induction false} StatementsReadOnlyColumns(table: string, cols: seq<string>, a: seq<Row>, b: seq<Row>)
    requires |a| == |b|
    requires forall i, k :: 0 <= i < |a| && 0 <= k < |cols| ==> CellAt(a[i], cols[k]) == CellAt(b[i], cols[k])
    ensures Statements(table, cols, a) == Statements(table, cols, b)
  {
    forall i | 0 <= i < |a|
      ensures Guard(table, cols, a[i]) == Guard(table, cols, b[i])
    {
      assert Literals(cols, a[i]) == Literals(cols, b[i]);
    }
    assert forall i :: 0 <= i < |a| ==> Statement(table, cols, a[i]) == Statement(table, cols, b[i]);
  }

  /** Generating from the validated (projected) table gives the same
      statements as generating from the original table with the same
      columns: the projection drops only cells the statements never read. */
  lemma {:induction false} ProjectionTransparent(df: Table, tableName: string, columns: seq<string>)
    requires WellFormed(df)
    requires Validate(df, columns).Success?
    ensures Covers(df.rows, columns)
    ensures Statements(tableName, columns, Validate(df, columns).value.rows)
            == Statements(tableName, columns, df.rows)
  {
    var p := Validate(df, columns).value;
    forall i | 0 <= i < |df.rows|
      ensures HasColumns(df.rows[i], columns)
    {
      forall k | 0 <= k < |columns|
        ensures columns[k] in df.rows[i]
      {
        assert columns[k] in p.rows[i];
      }
    }
    StatementsReadOnlyColumns(tableName, columns, p.rows, df.rows);
  }

  /** The conversion behind the upload form: validate the requested columns,
      then generate with the default batch size. A missing column yields
      exactly the missing names and no statement at all. A name requested
      twice labels two columns of the projection, so a table with any row
      fails at the first such name. Otherwise the script covers every row of
      the table, so the reported count is the number of rows plus the two
      markers. */
  method Convert(df: Table, tableName: string, columns: seq<string>)
    returns (r: Result<seq<string>, Error>)
    requires WellFormed(df)
    ensures r.Failure? <==>
              || (exists c :: c in columns && c !in df.columns)
              || (|df.rows| > 0 && exists k :: 0 <= k < |columns| && Ambiguous(columns, columns[k]))
    ensures r.Failure? && r.error.MissingColumns? ==>
              forall c :: c in r.error.names <==> c in columns && c !in df.columns
    ensures r.Failure? && r.error.MissingColumns? <==> exists c :: c in columns && c !in df.columns
    ensures r.Failure? && !r.error.MissingColumns? ==>
              && r.error.AmbiguousColumn?
              && exists k :: 0 <= k < |columns| && columns[k] == r.error.name && Ambiguous(columns, r.error.name)
                             && forall j :: 0 <= j < k ==> !Ambiguous(columns, columns[j])
    ensures r.Success? ==> Covers(df.rows, columns)
    ensures r.Success? ==> |r.value| == |df.rows| + 2
    ensures r.Success? ==> r.value == Script(tableName, columns, df.rows)
  {
    var v := Validate(df, columns);
    if v.Failure? {
      return Failure(v.error);
    }
    ProjectionTransparent(df, tableName, columns);
    r := GenerateInsertScripts(v.value, tableName, columns, DefaultBatchSize);
  }
}
