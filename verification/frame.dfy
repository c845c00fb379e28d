/** The parsed CSV table every ingestor receives, and the pandas reshaping
    they apply to it: year-column selection, `DataFrame.melt`, `dropna` on
    the melted value and the cast of the year column. */
module Frame {
  import opened Wrappers
  import opened Text
  import opened Numbers

  /** One CSV cell; `None` is a missing (NaN) cell. */
  type Cell = Option<string>

  /** One CSV row, keyed by column name. */
  type Row = map<string, Cell>

  /** A parsed CSV: the column names in file order and the rows in file order. */
  datatype Table = Table(columns: seq<string>, rows: seq<Row>)

  /** The cell of `row` under `column`; a row that lacks the key holds NaN there. */
  function CellAt(row: Row, column: string): Cell {
    if column in row then row[column] else None
  }

  /** `[col for col in df.columns if col.isdigit()]`. */
  function YearColumns(columns: seq<string>): (ys: seq<string>)
    ensures forall c :: c in ys <==> c in columns && IsDigits(c)
    ensures |ys| <= |columns|
    decreases |columns|
  {
    if |columns| == 0 then []
    else (if IsDigits(columns[0]) then [columns[0]] else []) + YearColumns(columns[1..])
  }

  /** The selection keeps file order: selecting from two runs of columns is
      selecting from each in turn. */
  lemma {:induction false} YearColumnsAppend(a: seq<string>, b: seq<string>)
    ensures YearColumns(a + b) == YearColumns(a) + YearColumns(b)
    decreases |a|
  {
    if |a| == 0 {
      assert a + b == b;
    } else {
      assert (a + b)[0] == a[0] && (a + b)[1..] == a[1..] + b;
      YearColumnsAppend(a[1..], b);
    }
  }

  /** The first of `names` that is not a column, the one pandas names in its KeyError. */
  function FirstMissing(columns: seq<string>, names: seq<string>): (r: Option<string>)
    ensures r.None? <==> forall c :: c in names ==> c in columns
    ensures r.Some? ==> r.value in names && r.value !in columns
    decreases |names|
  {
    if |names| == 0 then None
    else if names[0] !in columns then Some(names[0])
    else FirstMissing(columns, names[1..])
  }

  /** One row of a melted table: the identifier payload of its source row, the
      year column it came from (`var_name`) and that row's cell under it
      (`value_name`). */
  datatype Long<P> = Long(id: P, variable: string, value: Cell)

  /** The melted rows of one value column, one per source row in order. */
  function Block<P>(ids: seq<P>, rows: seq<Row>, column: string): (r: seq<Long<P>>)
    requires |ids| == |rows|
    ensures |r| == |rows|
  {
    seq(|rows|, i requires 0 <= i < |rows| => Long(ids[i], column, CellAt(rows[i], column)))
  }

  /** `melt` over value columns `valueVars`: every source row for the first
      column, then every source row for the next, and so on. `ids[i]` is the
      identifier payload of `rows[i]`. */
  function MeltCore<P>(ids: seq<P>, rows: seq<Row>, valueVars: seq<string>): (r: seq<Long<P>>)
    requires |ids| == |rows|
    ensures |r| == |rows| * |valueVars|
    ensures forall k :: 0 <= k < |r| ==> r[k].variable in valueVars
    decreases |valueVars|
  {
    if |valueVars| == 0 then []
    else Block(ids, rows, valueVars[0]) + MeltCore(ids, rows, valueVars[1..])
  }

  /** Melted row `j * |rows| + i` comes from source row `i` and value column `j`. */
  lemma {:induction false} MeltIndex<P>(ids: seq<P>, rows: seq<Row>, valueVars: seq<string>, i: nat, j: nat)
    requires |ids| == |rows| && i < |rows| && j < |valueVars|
    ensures j * |rows| + i < |MeltCore(ids, rows, valueVars)|
    ensures MeltCore(ids, rows, valueVars)[j * |rows| + i]
            == Long(ids[i], valueVars[j], CellAt(rows[i], valueVars[j]))
    decreases j
  {
    var n := |rows|;
    var r := MeltCore(ids, rows, valueVars);
    if j == 0 {
      assert r[i] == Block(ids, rows, valueVars[0])[i];
    } else {
      MeltIndex(ids, rows, valueVars[1..], i, j - 1);
      assert j * n + i == n + ((j - 1) * n + i);
      assert r[j * n + i] == MeltCore(ids, rows, valueVars[1..])[(j - 1) * n + i];
    }
  }

  /** Conversely, every melted row is the cell of some source row under some
      value column, carrying that row's payload. */
  lemma {:induction false} MeltOrigin<P>(ids: seq<P>, rows: seq<Row>, valueVars: seq<string>, x: Long<P>)
    requires |ids| == |rows| && x in MeltCore(ids, rows, valueVars)
    ensures exists i, j :: 0 <= i < |rows| && 0 <= j < |valueVars|
                           && x == Long(ids[i], valueVars[j], CellAt(rows[i], valueVars[j]))
    decreases |valueVars|
  {
    var b := Block(ids, rows, valueVars[0]);
    if x in b {
      var i :| 0 <= i < |b| && b[i] == x;
      assert x == Long(ids[i], valueVars[0], CellAt(rows[i], valueVars[0]));
    } else {
      MeltOrigin(ids, rows, valueVars[1..], x);
      var i, j :| 0 <= i < |rows| && 0 <= j < |valueVars[1..]|
                  && x == Long(ids[i], valueVars[1..][j], CellAt(rows[i], valueVars[1..][j]));
      assert valueVars[1..][j] == valueVars[j + 1];
    }
  }

  /** The identifier payload of every row, in order. */
  function Payloads<P>(rows: seq<Row>, payload: Row -> P): (ids: seq<P>)
    ensures |ids| == |rows|
    ensures forall i :: 0 <= i < |rows| ==> ids[i] == payload(rows[i])
  {
    seq(|rows|, i requires 0 <= i < |rows| => payload(rows[i]))
  }

  /** `df.melt(id_vars=idVars, value_vars=<the year columns>)`, where `payload`
      reads the identifier columns of one row. A missing identifier column is
      a KeyError. */
  function Melt<P>(t: Table, idVars: seq<string>, payload: Row -> P): (r: Result<seq<Long<P>>, Failure>)
    ensures r.Failure? <==> exists c :: c in idVars && c !in t.columns
    ensures r.Failure? ==> r.error.MissingColumn? && r.error.column in idVars && r.error.column !in t.columns
    ensures r.Success? ==> |r.value| == |t.rows| * |YearColumns(t.columns)|
    ensures r.Success? ==> forall k :: 0 <= k < |r.value| ==> IsDigits(r.value[k].variable) && r.value[k].variable in t.columns
  {
    match FirstMissing(t.columns, idVars)
    case Some(c) => Failure(MissingColumn(c))
    case None => Success(MeltCore(Payloads(t.rows, payload), t.rows, YearColumns(t.columns)))
  }

  lemma ProductNonNegative(a: nat, b: nat)
    ensures a * b >= 0
  {
  }

  /** Melted row `j * R + i` carries source row `i`'s payload, the name of the
      `j`-th year column and row `i`'s cell under it. */
  lemma MeltAt<P>(t: Table, idVars: seq<string>, payload: Row -> P, i: nat, j: nat)
    requires Melt(t, idVars, payload).Success?
    requires i < |t.rows| && j < |YearColumns(t.columns)|
    ensures var longs := Melt(t, idVars, payload).value;
            var y := YearColumns(t.columns)[j];
            j * |t.rows| + i < |longs| && longs[j * |t.rows| + i] == Long(payload(t.rows[i]), y, CellAt(t.rows[i], y))
  {
    MeltIndex(Payloads(t.rows, payload), t.rows, YearColumns(t.columns), i, j);
  }

  /** `dropna(subset=[var_name, value_name])`: the year name is never
      missing, so this keeps exactly the rows with a present value, each as
      often as it occurs, and drops every other row. `DropMissingAppend`
      shows that the kept rows stay in their order. */
  function DropMissing<P>(longs: seq<Long<P>>): (r: seq<Long<P>>)
    ensures forall k :: 0 <= k < |r| ==> r[k] in longs && r[k].value.Some?
    ensures forall k :: 0 <= k < |longs| && longs[k].value.Some? ==> longs[k] in r
    ensures forall k :: 0 <= k < |longs| ==> multiset(r)[longs[k]] == (if longs[k].value.Some? then multiset(longs)[longs[k]] else 0)
    ensures |r| <= |longs|
    decreases |longs|
  {
    if |longs| == 0 then []
    else
      var rest := DropMissing(longs[1..]);
      DropMissingStep(longs, rest);
      (if longs[0].value.Some? then [longs[0]] else []) + rest
  }

  /** One step of `DropMissing`: putting the head, when present, before the
      rows kept from the tail keeps each row as often as the input holds it. */
  lemma DropMissingStep<P>(longs: seq<Long<P>>, rest: seq<Long<P>>)
    requires |longs| > 0
    requires forall k :: 0 <= k < |rest| ==> rest[k] in longs[1..] && rest[k].value.Some?
    requires forall k :: 0 <= k < |longs[1..]| ==> multiset(rest)[longs[1..][k]] == (if longs[1..][k].value.Some? then multiset(longs[1..])[longs[1..][k]] else 0)
    ensures var r := (if longs[0].value.Some? then [longs[0]] else []) + rest;
            forall k :: 0 <= k < |longs| ==> multiset(r)[longs[k]] == (if longs[k].value.Some? then multiset(longs)[longs[k]] else 0)
  {
    var head := if longs[0].value.Some? then [longs[0]] else [];
    var tail := longs[1..];
    assert longs == [longs[0]] + tail;
    assert multiset(longs) == multiset{longs[0]} + multiset(tail);
    assert multiset(head + rest) == multiset(head) + multiset(rest);
    forall k | 0 <= k < |longs|
      ensures multiset(head + rest)[longs[k]] == (if longs[k].value.Some? then multiset(longs)[longs[k]] else 0)
    {
      var x := longs[k];
      if x in tail {
        var j :| 0 <= j < |tail| && tail[j] == x;
        assert multiset(rest)[x] == (if x.value.Some? then multiset(tail)[x] else 0);
      } else {
        assert x !in rest;
        assert multiset(tail)[x] == 0;
      }
    }
  }

  /** Dropping keeps order: it distributes over concatenation. */
  lemma {:induction false} DropMissingAppend<P>(a: seq<Long<P>>, b: seq<Long<P>>)
    ensures DropMissing(a + b) == DropMissing(a) + DropMissing(b)
    decreases |a|
  {
    if |a| == 0 {
      assert a + b == b;
    } else {
      assert (a + b)[0] == a[0] && (a + b)[1..] == a[1..] + b;
      DropMissingAppend(a[1..], b);
    }
  }

  /** `int(col)` and `astype(int)` of a year column name. */
  function Year(variable: string): (r: Result<int, Failure>)
    ensures IsDigits(variable) ==> r == Success(DigitsValue(variable) as int)
    ensures r.Success? ==> ParseInt(variable) == Some(r.value)
  {
    match ParseInt(variable)
    case None => Failure(BadNumber(variable))
    case Some(n) => Success(n)
  }

  /** A column operation that raises on its first bad element, as a pandas
      `astype` or `apply` does: the results in order, or the first failure. */
  function MapAll<A, B>(xs: seq<A>, f: A -> Result<B, Failure>): (r: Result<seq<B>, Failure>)
    ensures r.Success? <==> forall i :: 0 <= i < |xs| ==> f(xs[i]).Success?
    ensures r.Success? ==> |r.value| == |xs| && forall i :: 0 <= i < |xs| ==> r.value[i] == f(xs[i]).value
    ensures r.Failure? ==> exists i :: 0 <= i < |xs| && f(xs[i]) == Failure(r.error) && forall j :: 0 <= j < i ==> f(xs[j]).Success?
    decreases |xs|
  {
    if |xs| == 0 then Success([])
    else match f(xs[0])
      case Failure(e) => Failure(e)
      case Success(y) =>
        var rest := MapAll(xs[1..], f);
        assert forall i :: 1 <= i < |xs| ==> xs[i] == xs[1..][i - 1];
        match rest
        case Failure(e) => Failure(e)
        case Success(ys) => Success([y] + ys)
  }

  /** Every row of a successful melt is some source row's cell under some year
      column, carrying that row's payload. */
  lemma MeltOriginAt<P>(t: Table, idVars: seq<string>, payload: Row -> P, x: Long<P>)
    requires Melt(t, idVars, payload).Success? && x in Melt(t, idVars, payload).value
    ensures exists i, j :: 0 <= i < |t.rows| && 0 <= j < |YearColumns(t.columns)|
                           && x == Long(payload(t.rows[i]), YearColumns(t.columns)[j], CellAt(t.rows[i], YearColumns(t.columns)[j]))
  {
    var ids := Payloads(t.rows, payload);
    MeltOrigin(ids, t.rows, YearColumns(t.columns), x);
  }
}
