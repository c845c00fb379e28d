/** `EmbrapaBaseIngestor`, the base class of the legacy ingestors in
    `app/services/embrapa`: the download URL of a CSV path and the generic
    year-wise melt over one identifier column. */
module LegacyBase {
  import opened Wrappers
  import opened Text
  import opened Numbers
  import opened Frame

  /** `BASE_URL`. */
  const BaseUrl: string := "http://vitibrasil.cnpuv.embrapa.br"

  /** `id_column`, the identifier a subclass keeps unless it overrides it. */
  const IdColumn: string := "produto"

  /** The separator `fetch_csv` parses every download with. */
  const BaseSeparator: char := ';'

  /** The download: the table parsed from a URL with a separator, or `None`
      when the request or the parse raises. */
  type Fetch = (string, char) -> Option<Table>

  /** `f"{BASE_URL}/{CSV_PATH}"`: the base URL, one slash, then the path. */
  function FetchUrl(csvPath: string): (url: string)
    ensures |url| == |BaseUrl| + 1 + |csvPath|
    ensures url[..|BaseUrl|] == BaseUrl && url[|BaseUrl|] == '/'
    ensures url[|BaseUrl| + 1..] == csvPath
  {
    BaseUrl + "/" + csvPath
  }

  /** Distinct paths download from distinct URLs, and the path can be read
      back off its URL. */
  lemma FetchUrlInjective(a: string, b: string)
    ensures FetchUrl(a) == FetchUrl(b) <==> a == b
  {
    if FetchUrl(a) == FetchUrl(b) {
      assert a == FetchUrl(a)[|BaseUrl| + 1..] == FetchUrl(b)[|BaseUrl| + 1..] == b;
    }
  }

  /** `fetch_csv()` of a subclass with `CSV_PATH == csvPath`. */
  function FetchCsv(fetch: Fetch, csvPath: string): (r: Option<Table>)
    ensures r == fetch(BaseUrl + "/" + csvPath, ';')
  {
    fetch(FetchUrl(csvPath), BaseSeparator)
  }

  /** The identifier payload: the row's cell under `column`. */
  function IdOf(column: string): Row -> Cell {
    (row: Row) => CellAt(row, column)
  }

  /** `reshape(df)` with `id_vars=[idColumn]`: one long row per (source row,
      digit-named column), year-major, or a KeyError when the identifier
      column is missing. */
  function Reshape(t: Table, idColumn: string): (r: Result<seq<Long<Cell>>, Failure>)
    ensures r.Failure? <==> idColumn !in t.columns
    ensures r.Failure? ==> r.error == MissingColumn(idColumn)
    ensures r.Success? ==> |r.value| == |t.rows| * |YearColumns(t.columns)|
    ensures r.Success? ==> forall k :: 0 <= k < |r.value| ==> IsDigits(r.value[k].variable) && r.value[k].variable in t.columns
  {
    assert forall c :: c in [idColumn] <==> c == idColumn;
    Melt(t, [idColumn], IdOf(idColumn))
  }

  /** Long row `j * R + i` is source row `i`'s identifier, the `j`-th year
      column's name and row `i`'s cell under it. */
  lemma ReshapeAt(t: Table, idColumn: string, i: nat, j: nat)
    requires idColumn in t.columns
    requires i < |t.rows| && j < |YearColumns(t.columns)|
    ensures var y := YearColumns(t.columns)[j];
            j * |t.rows| + i < |Reshape(t, idColumn).value|
            && Reshape(t, idColumn).value[j * |t.rows| + i] == Long(CellAt(t.rows[i], idColumn), y, CellAt(t.rows[i], y))
  {
    MeltAt(t, [idColumn], IdOf(idColumn), i, j);
  }

  /** Conversely, every long row is some source row's identifier and cell
      under some year column. */
  lemma ReshapeOrigin(t: Table, idColumn: string, x: Long<Cell>)
    requires idColumn in t.columns && x in Reshape(t, idColumn).value
    ensures exists i, j :: 0 <= i < |t.rows| && 0 <= j < |YearColumns(t.columns)|
                           && x == Long(CellAt(t.rows[i], idColumn), YearColumns(t.columns)[j], CellAt(t.rows[i], YearColumns(t.columns)[j]))
  {
    MeltOriginAt(t, [idColumn], IdOf(idColumn), x);
  }

  /** The cells of one column, row by row. */
  function ColumnCells(t: Table, column: string): (cs: seq<Cell>)
    ensures |cs| == |t.rows| && forall i :: 0 <= i < |t.rows| ==> cs[i] == CellAt(t.rows[i], column)
  {
    Payloads(t.rows, IdOf(column))
  }

  /** Every long row carries the identifier of some source row. */
  lemma ReshapeIds(t: Table, idColumn: string)
    requires idColumn in t.columns
    ensures forall k :: 0 <= k < |Reshape(t, idColumn).value| ==> Reshape(t, idColumn).value[k].id in ColumnCells(t, idColumn)
  {
    var r := Reshape(t, idColumn).value;
    var cs := ColumnCells(t, idColumn);
    forall k | 0 <= k < |r|
      ensures r[k].id in cs
    {
      ReshapeOrigin(t, idColumn, r[k]);
      var i, j :| 0 <= i < |t.rows| && 0 <= j < |YearColumns(t.columns)|
                  && r[k] == Long(CellAt(t.rows[i], idColumn), YearColumns(t.columns)[j], CellAt(t.rows[i], YearColumns(t.columns)[j]));
      assert r[k].id == cs[i];
    }
  }

  /** `int(row["ano"])` inside the per-row handler: `None` when it raises. */
  function RowYear(variable: string): (y: Option<int>)
    ensures IsDigits(variable) ==> y == Some(DigitsValue(variable) as int)
    ensures y.Some? ==> ParseInt(variable) == y
  {
    match Year(variable)
    case Failure(_) => None
    case Success(n) => Some(n)
  }
}
