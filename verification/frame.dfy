/** The in-memory table the loader hands to the generator, and the column check
    `validate_dataframe` that projects it onto the requested columns. */
module Frame {
  import opened Wrappers
  import opened Literal

  /** One row: the cell under each column name. */
  type Row = map<string, Cell>

  /** A data frame: its column labels in order and its rows in order. */
  datatype Table = Table(columns: seq<string>, rows: seq<Row>)

  /** Why a conversion produced no script. */
  datatype Error =
    | MissingColumns(names: set<string>)  // requested names the table lacks
    | ZeroBatchSize                       // `range` refuses a step of 0
    | AmbiguousColumn(name: string)       // a requested name labels two columns

  /** `row[col]`. The generator is only ever handed rows that hold every
      requested column (see `Covers`), so the fallback for an absent column,
      where the host would raise a key error, never shows in its output. */
  function CellAt(row: Row, col: string): Cell
  {
    if col in row then row[col] else Missing
  }

  /** The row has a cell under each of `cols`. */
  predicate HasColumns(row: Row, cols: seq<string>)
  {
    forall k :: 0 <= k < |cols| ==> cols[k] in row
  }

  /** Every row has a cell under each of `cols`. */
  predicate Covers(rows: seq<Row>, cols: seq<string>)
  {
    forall i :: 0 <= i < |rows| ==> HasColumns(rows[i], cols)
  }

  /** A data frame holds a cell (possibly a missing one) for every column of
      every row. */
  predicate WellFormed(t: Table)
  {
    Covers(t.rows, t.columns)
  }

  /** `c` labels more than one column: `row[c]` is then a series of cells,
      not one cell, and the missing-value test on it raises. */
  predicate Ambiguous(labels: seq<string>, c: string)
  {
    multiset(labels)[c] >= 2
  }

  /** The first requested column, in request order, that labels more than one
      column of the table: the one the generator's column loop stumbles on. */
  function FirstAmbiguous(labels: seq<string>, cols: seq<string>): (r: Option<string>)
    ensures r.None? <==> forall k :: 0 <= k < |cols| ==> !Ambiguous(labels, cols[k])
    ensures r.Some? ==>
              exists k :: 0 <= k < |cols| && cols[k] == r.value && Ambiguous(labels, r.value)
                          && forall j :: 0 <= j < k ==> !Ambiguous(labels, cols[j])
  {
    if cols == [] then None
    else if Ambiguous(labels, cols[0]) then Some(cols[0])
    else
      var r := FirstAmbiguous(labels, cols[1..]);
      if r.Some? then
        var k :| 0 <= k < |cols| - 1 && cols[1..][k] == r.value && Ambiguous(labels, r.value)
                 && forall j :: 0 <= j < k ==> !Ambiguous(labels, cols[1..][j]);
        assert cols[k + 1] == r.value;
        r
      else r
  }

  /** Requesting `a` twice from a table labelled `a`, `b`: validation keeps
      both requests, so the projection labels two columns `a`, and `a` is the
      name the generator fails on; requesting `a`, `b` names none. */
  lemma AmbiguousExample()
    ensures var t := Table(["a", "b"], [map["a" := Int("1"), "b" := Int("2")]]);
            var v := Validate(t, ["a", "a"]);
            && v.Success? && v.value.columns == ["a", "a"]
            && FirstAmbiguous(v.value.columns, ["a", "a"]) == Some("a")
    ensures var t := Table(["a", "b"], [map["a" := Int("1"), "b" := Int("2")]]);
            var v := Validate(t, ["a", "b"]);
            && v.Success? && v.value.columns == ["a", "b"]
            && FirstAmbiguous(v.value.columns, ["a", "b"]) == None
  {
    var t := Table(["a", "b"], [map["a" := Int("1"), "b" := Int("2")]]);
    assert "a" in t.columns && "b" in t.columns;
    assert multiset(["a", "a"])["a"] == 2;
    assert multiset(["a", "b"])["a"] == 1 && multiset(["a", "b"])["b"] == 1;
  }

  /** The row restricted to the named columns. */
  function ProjectRow(row: Row, cols: seq<string>): (p: Row)
    requires forall k :: 0 <= k < |cols| ==> cols[k] in row
    ensures forall c :: c in p <==> c in cols
    ensures forall c :: c in p ==> p[c] == row[c]
  {
    map c | c in cols :: row[c]
  }

  /** `validate_dataframe(df, required)`: fails with the set of requested
      names that are not columns of the table; otherwise the table restricted
      to the requested columns, in the requested order, duplicates kept. */
  function Validate(t: Table, required: seq<string>): (r: Result<Table, Error>)
    requires WellFormed(t)
    ensures r.Failure? <==> exists c :: c in required && c !in t.columns
    ensures r.Failure? ==>
              r.error.MissingColumns?
              && forall c :: c in r.error.names <==> c in required && c !in t.columns
    ensures r.Success? ==>
              && r.value.columns == required
              && |r.value.rows| == |t.rows|
              && WellFormed(r.value)
              && (forall i, c :: 0 <= i < |t.rows| && c in r.value.rows[i] ==> c in required)
              && (forall i, c :: 0 <= i < |t.rows| && c in required ==>
                    c in r.value.rows[i] && r.value.rows[i][c] == t.rows[i][c])
  {
    var missing := set c | c in required && c !in t.columns;
    if missing != {} then
      Failure(MissingColumns(missing))
    else
      assert forall k :: 0 <= k < |required| ==> required[k] in t.columns by {
        forall k | 0 <= k < |required|
          ensures required[k] in t.columns
        {
          assert required[k] !in missing;
        }
      }
      Success(Table(required, seq(|t.rows|, i requires 0 <= i < |t.rows| =>
        assert forall k :: 0 <= k < |required| ==> required[k] in t.rows[i] by {
          forall k | 0 <= k < |required|
            ensures required[k] in t.rows[i]
          {
            var j :| 0 <= j < |t.columns| && t.columns[j] == required[k];
          }
        }
        ProjectRow(t.rows[i], required))))
  }
}
