/** The `app/exportation` package: the export ingestor, which reads one CSV
    per exported product, melts the yearly quantity columns per country,
    attaches a `valor` column and writes quantity, value and the file's stem
    per (year, country); and the crud functions over the exportation table. */
module Exportation {
  import opened Wrappers
  import opened Text
  import opened Numbers
  import opened Normalise
  import opened Frame
  import opened Store
  import opened Load

  /** The exportation `Category` enum. */
  datatype Category = Vinho | Espumantes | Uva | Suco

  /** `CATEGORY_MAPPING`: the category of each export file. */
  const CategoryMapping: map<string, Category> := map[
    "download/ExpVinho.csv" := Vinho,
    "download/ExpEspumantes.csv" := Espumantes,
    "download/ExpUva.csv" := Uva,
    "download/ExpSuco.csv" := Suco
  ]

  /** A row of the exportation table: `path` holds the stem of the source
      file ("ExpVinho" for "download/ExpVinho.csv"). The record of
      `app/exportation/models.py` has no category column, so the by-category
      crud functions raise AttributeError as written. The model adds an
      optional `category` column, the one those functions assume; the ingest
      never sets it, so it is `None` on every ingested row. */
  datatype Exportation = Exportation(year: int, country: string, quantityKg: Float, value: Float, path: string, category: Option<Category>)

  /** `PATHS`, in the order the ingestor reads them. */
  const Paths: seq<string> := [
    "download/ExpVinho.csv",
    "download/ExpEspumantes.csv",
    "download/ExpUva.csv",
    "download/ExpSuco.csv"
  ]

  /** The CSV separator: ";" only for the path "download/ImpSuco.csv". */
  function Separator(path: string): char {
    if path == "download/ImpSuco.csv" then ';' else '\t'
  }

  /** No export path is the import juice path, so every export file is read
      with tab as separator, the juice file included. */
  lemma SeparatorOfPaths()
    ensures forall i :: 0 <= i < |Paths| ==> Separator(Paths[i]) == '\t'
  {
    forall i | 0 <= i < |Paths|
      ensures Separator(Paths[i]) == '\t'
    {
      assert Paths[i][9] == 'E';
    }
  }

  /** Every export path lies in a directory. */
  lemma PathsHaveDirectory()
    ensures forall i :: 0 <= i < |Paths| ==> '/' in Paths[i]
  {
    forall i | 0 <= i < |Paths|
      ensures '/' in Paths[i]
    {
      assert Paths[i][8] == '/';
    }
  }

  /** The stem of an export path is the file name without directory and
      extension: "download/ExpVinho.csv" is stored as "ExpVinho". */
  lemma StemOfExportPath(name: string)
    requires '/' !in name && '.' !in name
    ensures Stem("download/" + name + ".csv") == Some(name)
  {
    StemOfPath("download", name, "csv");
    assert "download" + "/" + name + "." + "csv" == "download/" + name + ".csv";
  }

  /** One row of the reshaped frame, with the source path and its stem: the
      year column name, the country, the quantity cell and the value cell. */
  datatype ExpRow = ExpRow(path: string, stem: string, variable: string, country: Cell, quantity: Cell, valor: Cell)

  function Country(row: Row): Cell {
    CellAt(row, "pais")
  }

  /** The row's own country and `valor` cell, the payload of the corrected melt. */
  function CountryAndValor(row: Row): (Cell, Cell) {
    (CellAt(row, "pais"), CellAt(row, "valor"))
  }

  /** `melted["valores"] = df["valor"]`: assignment aligns on the index, so
      melted row `k` receives source row `k`'s `valor`, and NaN once `k` passes
      the last source row. */
  function AlignedValor(t: Table, k: nat): (c: Cell)
    ensures k >= |t.rows| ==> c.None?
  {
    if k < |t.rows| then CellAt(t.rows[k], "valor") else None
  }

  /** `reshape(df)` as written: melt over `pais`, then the index-aligned
      `valor` column. A missing `pais` or `valor` column is a KeyError. */
  function ReshapeAsWritten(t: Table, path: string, stem: string): (r: Result<seq<ExpRow>, Failure>)
    ensures "pais" !in t.columns ==> r == Failure(MissingColumn("pais"))
    ensures "pais" in t.columns && "valor" !in t.columns ==> r == Failure(MissingColumn("valor"))
    ensures r.Success? <==> "pais" in t.columns && "valor" in t.columns
    ensures r.Success? ==> |r.value| == |t.rows| * |YearColumns(t.columns)|
  {
    assert forall c :: c in ["pais"] <==> c == "pais";
    match Melt(t, ["pais"], Country)
    case Failure(e) => Failure(e)
    case Success(longs) =>
      if "valor" !in t.columns then Failure(MissingColumn("valor"))
      else Success(AlignedRows(t, longs, path, stem))
  }

  /** The melted rows with the index-aligned `valor` column attached. */
  function AlignedRows(t: Table, longs: seq<Long<Cell>>, path: string, stem: string): (r: seq<ExpRow>)
    ensures |r| == |longs|
    ensures forall k :: 0 <= k < |longs| ==>
      r[k] == ExpRow(path, stem, longs[k].variable, longs[k].id, longs[k].value, AlignedValor(t, k))
  {
    seq(|longs|, k requires 0 <= k < |longs| =>
      ExpRow(path, stem, longs[k].variable, longs[k].id, longs[k].value, AlignedValor(t, k)))
  }

  /** `reshape(df)` as evidently intended: every melted row carries the
      `valor` of the source row it came from. */
  function Reshape(t: Table, path: string, stem: string): (r: Result<seq<ExpRow>, Failure>)
    ensures "pais" !in t.columns ==> r == Failure(MissingColumn("pais"))
    ensures "pais" in t.columns && "valor" !in t.columns ==> r == Failure(MissingColumn("valor"))
    ensures r.Success? <==> "pais" in t.columns && "valor" in t.columns
    ensures r.Success? ==> |r.value| == |t.rows| * |YearColumns(t.columns)|
  {
    assert forall c :: c in ["pais"] <==> c == "pais";
    match Melt(t, ["pais"], CountryAndValor)
    case Failure(e) => Failure(e)
    case Success(longs) =>
      if "valor" !in t.columns then Failure(MissingColumn("valor"))
      else Success(OwnRows(longs, path, stem))
  }

  /** The melted rows, each with the `valor` carried along from its own row. */
  function OwnRows(longs: seq<Long<(Cell, Cell)>>, path: string, stem: string): (r: seq<ExpRow>)
    ensures |r| == |longs|
    ensures forall k :: 0 <= k < |longs| ==>
      r[k] == ExpRow(path, stem, longs[k].variable, longs[k].id.0, longs[k].value, longs[k].id.1)
  {
    seq(|longs|, k requires 0 <= k < |longs| =>
      ExpRow(path, stem, longs[k].variable, longs[k].id.0, longs[k].value, longs[k].id.1))
  }

  /** The corrected reshape pairs source row `i` and year column `j` with that
      row's own country, quantity cell and `valor`. */
  lemma ReshapeAt(t: Table, path: string, stem: string, i: nat, j: nat)
    requires Reshape(t, path, stem).Success?
    requires i < |t.rows| && j < |YearColumns(t.columns)|
    ensures var y := YearColumns(t.columns)[j];
            j * |t.rows| + i < |Reshape(t, path, stem).value|
            && Reshape(t, path, stem).value[j * |t.rows| + i]
               == ExpRow(path, stem, y, CellAt(t.rows[i], "pais"), CellAt(t.rows[i], y), CellAt(t.rows[i], "valor"))
  {
    MeltAt(t, ["pais"], CountryAndValor, i, j);
    assert Reshape(t, path, stem).value == OwnRows(Melt(t, ["pais"], CountryAndValor).value, path, stem);
  }

  /** As written, the melted row of source row 0 under the second year column
      sits at index |rows|, past the last source row, so it is given a NaN
      `valor` (stored as 0.0) whatever row 0's `valor` is; the corrected
      reshape gives it row 0's. */
  lemma ValorMisaligned(t: Table, path: string, stem: string)
    requires ReshapeAsWritten(t, path, stem).Success?
    requires |t.rows| >= 1 && |YearColumns(t.columns)| >= 2
    ensures var y := YearColumns(t.columns)[1];
            var asWritten := ReshapeAsWritten(t, path, stem).value[|t.rows|];
            var intended := Reshape(t, path, stem).value[|t.rows|];
            asWritten.country == CellAt(t.rows[0], "pais") && asWritten.quantity == CellAt(t.rows[0], y)
            && asWritten.valor.None?
            && intended.country == CellAt(t.rows[0], "pais") && intended.valor == CellAt(t.rows[0], "valor")
  {
    var n := |t.rows|;
    assert 1 * n + 0 == n;
    ReshapeAsWrittenAt(t, path, stem, 0, 1);
    ReshapeAt(t, path, stem, 0, 1);
    assert AlignedValor(t, n).None?;
  }

  /** As written, source row `i` under year column `j` keeps its country and
      quantity cell but takes the `valor` aligned on its melted index. */
  lemma ReshapeAsWrittenAt(t: Table, path: string, stem: string, i: nat, j: nat)
    requires ReshapeAsWritten(t, path, stem).Success?
    requires i < |t.rows| && j < |YearColumns(t.columns)|
    ensures var y := YearColumns(t.columns)[j];
            var k := j * |t.rows| + i;
            k < |ReshapeAsWritten(t, path, stem).value|
            && ReshapeAsWritten(t, path, stem).value[k]
               == ExpRow(path, stem, y, CellAt(t.rows[i], "pais"), CellAt(t.rows[i], y), AlignedValor(t, k))
  {
    MeltAt(t, ["pais"], Country, i, j);
    assert ReshapeAsWritten(t, path, stem).value == AlignedRows(t, Melt(t, ["pais"], Country).value, path, stem);
  }

  /** `int(row["ano"])`: the year, or `None` when the cast raises before
      the lookup. */
  function RowYear(l: ExpRow): Option<int> {
    match Year(l.variable)
    case Failure(_) => None
    case Success(y) => Some(y)
  }

  /** The body of the per-row `try` after the guard: both normalisers, and
      validation of a string country. Any failure is a ValueError, logged. */
  function Build(l: ExpRow): (r: Option<Exportation>)
    ensures r.Some? <==> RowYear(l).Some? && l.country.Some? && LegacyQuantity(l.quantity).Success? && LegacyQuantity(l.valor).Success?
    ensures r.Some? ==> r.value.path == l.stem && r.value.year == RowYear(l).value && Some(r.value.country) == l.country
    ensures r.Some? ==> r.value.category.None?
    ensures r.Some? ==> r.value.quantityKg == LegacyQuantity(l.quantity).value && r.value.value == LegacyQuantity(l.valor).value
  {
    match RowYear(l)
    case None => None
    case Some(y) =>
      match (l.country, LegacyQuantity(l.quantity), LegacyQuantity(l.valor))
      case (Some(c), Success(q), Success(v)) => Some(Exportation(y, c, q, v, l.stem, None))
      case _ => None
  }

  /** The lookup key: year, country and path. */
  type Key = (int, Cell, string)

  function RecKey(rec: Exportation): Key {
    (rec.year, Some(rec.country), rec.path)
  }

  /** As written, the guard looks records up by the full path
      ("download/ExpVinho.csv"), while records store its stem. */
  function RowKeyAsWritten(l: ExpRow): Option<Key> {
    match RowYear(l)
    case None => None
    case Some(y) => Some((y, l.country, l.path))
  }

  /** As evidently intended, the guard looks records up by the stored stem. */
  function RowKey(l: ExpRow): Option<Key> {
    match RowYear(l)
    case None => None
    case Some(y) => Some((y, l.country, l.stem))
  }

  const LoaderAsWritten: Loader<ExpRow, Exportation, Key> := Loader(RowKeyAsWritten, RecKey, Build)

  const Ingestor: Loader<ExpRow, Exportation, Key> := Loader(RowKey, RecKey, Build)

  /** The stem-keyed guard finds a record under the key it was created with. */
  lemma IngestorSound()
    ensures Sound(Ingestor)
  {
  }

  /** The row shape the loop produces: a full path with a directory, and its
      stem without one. */
  predicate PathRow(l: ExpRow) {
    '/' in l.path && '/' !in l.stem
  }

  /** The record shape the loop writes: a stem without a directory. */
  predicate StemRecord(rec: Exportation) {
    '/' !in rec.path
  }

  /** A full path never equals a stored stem, so the as-written guard can
      never find a record written by the ingestor. */
  lemma AsWrittenKeysNeverMeet()
    ensures KeysNeverMeet(LoaderAsWritten, PathRow, StemRecord)
  {
  }

  /** The fetch: the table parsed from a path with a separator, or `None`
      when the download raises. */
  type Fetch = (string, char) -> Option<Table>

  /** One iteration of the path loop up to the row loop. The stem is taken
      here: with no '/' in the path, splitting it raises IndexError, which the
      per-row handler does not catch. */
  function SourceWith(fetch: Fetch, path: string, aligned: bool): (r: Result<seq<ExpRow>, Failure>)
    ensures r.Success? ==> forall k :: 0 <= k < |r.value| ==> r.value[k].path == path && Stem(path) == Some(r.value[k].stem)
  {
    match fetch(path, Separator(path))
    case None => Failure(SourceUnavailable(path))
    case Some(t) =>
      match Stem(path)
      case None => Failure(BadPath(path))
      case Some(stem) => if aligned then Reshape(t, path, stem) else ReshapeAsWritten(t, path, stem)
  }

  function SourcesWith(fetch: Fetch, aligned: bool): (r: seq<Result<seq<ExpRow>, Failure>>)
    ensures |r| == |Paths| && forall i :: 0 <= i < |Paths| ==> r[i] == SourceWith(fetch, Paths[i], aligned)
  {
    seq(|Paths|, i requires 0 <= i < |Paths| => SourceWith(fetch, Paths[i], aligned))
  }

  /** Every row a source in a directory yields has the path-row shape. */
  lemma SourceIsPathRows(fetch: Fetch, path: string, aligned: bool)
    requires '/' in path
    ensures SourceWith(fetch, path, aligned).Success? ==> AllOk(SourceWith(fetch, path, aligned).value, PathRow)
  {
  }

  /** Every row any source yields has the path-row shape. */
  lemma SourcesArePathRows(fetch: Fetch, aligned: bool)
    ensures BatchesOk(SourcesWith(fetch, aligned), PathRow)
  {
    var batches := SourcesWith(fetch, aligned);
    PathsHaveDirectory();
    forall b | 0 <= b < |batches| && batches[b].Success?
      ensures AllOk(batches[b].value, PathRow)
    {
      SourceIsPathRows(fetch, Paths[b], aligned);
    }
  }

  /** `ExportationIngestor.ingest` as written: index-aligned values and the
      full-path guard. */
  function IngestAsWritten(fetch: Fetch, store: seq<Exportation>): (o: Outcome<Exportation>)
    ensures store <= o.state.store
    ensures o.failure.None? <==> forall i :: 0 <= i < |Paths| ==> SourceWith(fetch, Paths[i], false).Success?
  {
    RunBatches(LoaderAsWritten, Fresh(store), SourcesWith(fetch, false))
  }

  /** As written, the ingest never skips a row, and running it a second time
      writes every record again: each record of the first run ends up stored
      twice. */
  lemma RerunDuplicatesRecords(fetch: Fetch, store: seq<Exportation>)
    requires forall i :: 0 <= i < |store| ==> StemRecord(store[i])
    ensures IngestAsWritten(fetch, store).state.skipped == 0
    ensures var first := IngestAsWritten(fetch, store);
            var again := IngestAsWritten(fetch, first.state.store);
            again.state.inserted == first.state.inserted
            && |again.state.store| == |store| + 2 * first.state.inserted
  {
    AsWrittenKeysNeverMeet();
    SourcesArePathRows(fetch, false);
    RunBatchesNeverSkips(LoaderAsWritten, PathRow, StemRecord, store, SourcesWith(fetch, false));
  }

  /** The ingest as evidently intended: values from each row's own `valor`,
      and the guard keyed on the stored stem. */
  function Ingest(fetch: Fetch, store: seq<Exportation>): (o: Outcome<Exportation>)
    ensures store <= o.state.store
    ensures o.failure.None? <==> forall i :: 0 <= i < |Paths| ==> SourceWith(fetch, Paths[i], true).Success?
  {
    RunBatches(Ingestor, Fresh(store), SourcesWith(fetch, true))
  }

  /** The corrected ingest is idempotent: a second run inserts nothing. */
  lemma IngestIdempotent(fetch: Fetch, store: seq<Exportation>)
    ensures var first := Ingest(fetch, store);
            var again := Ingest(fetch, first.state.store);
            again.state.store == first.state.store && again.state.inserted == 0 && again.failure == first.failure
  {
    IngestorSound();
    RunBatchesIdempotent(Ingestor, store, SourcesWith(fetch, true));
  }

  /** The corrected ingest never stores two records with the same key. */
  lemma IngestKeepsKeysDistinct(fetch: Fetch, store: seq<Exportation>)
    requires DistinctKeys(store, RecKey)
    ensures DistinctKeys(Ingest(fetch, store).state.store, RecKey)
  {
    IngestorSound();
    RunBatchesKeepsKeysDistinct(Ingestor, store, SourcesWith(fetch, true));
  }

  // The crud functions of the exportation table.

  /** `create_exportation`: the table gains the record, which is returned. */
  function CreateExportation(s: seq<Exportation>, data: Exportation): (r: (seq<Exportation>, Exportation))
    ensures r.1 == data
    ensures multiset(r.0) == multiset(s) + multiset{data}
    ensures GetByYearAndCountryAndPath(r.0, data.year, Some(data.country), data.path).Some?
  {
    CreateThenFind(s, data, RecKey);
    (Create(s, data), data)
  }

  /** `count_exportation`. */
  function CountExportation(s: seq<Exportation>): (n: nat)
    ensures n == |ListExportation(s, None, None)|
  {
    var r := ListExportation(s, None, None);
    assert |r| == |multiset(r)| == |multiset(s)| == |s|;
    |s|
  }

  /** The ORDER BY of `list_exportation`: year descending, then country. */
  function ListOrder(rec: Exportation): OrderKey {
    OrderKey(rec.year, [rec.country])
  }

  /** `list_exportation(limit, offset)`. */
  function ListExportation(s: seq<Exportation>, limit: Option<nat>, offset: Option<nat>): (r: seq<Exportation>)
    ensures Sorted(r, ListOrder)
    ensures multiset(r) <= multiset(s)
    ensures Truthy(limit) ==> |r| <= limit.value
    ensures !Truthy(limit) && !Truthy(offset) ==> multiset(r) == multiset(s)
    ensures |r| == PageSize(|s|, limit, offset)
    ensures forall k :: 0 <= k < |r| ==> r[k] == SortBy(s, ListOrder)[Skipped(offset) + k]
  {
    List(s, ListOrder, limit, offset)
  }

  /** `get_by_year_and_country_and_path`: some record with all three values,
      if there is one. */
  function GetByYearAndCountryAndPath(s: seq<Exportation>, year: int, country: Cell, path: string): (r: Option<Exportation>)
    ensures r.Some? <==> exists i :: 0 <= i < |s| && s[i].year == year && Some(s[i].country) == country && s[i].path == path
    ensures r.Some? ==> r.value in s && r.value.year == year && Some(r.value.country) == country && r.value.path == path
  {
    FindKey(s, RecKey, (year, country, path))
  }

  /** `clear_exportation`. */
  function ClearExportation(s: seq<Exportation>): (r: seq<Exportation>)
    ensures |r| == 0
  {
    Clear(s)
  }

  function InCategory(category: Category): Exportation -> bool {
    (rec: Exportation) => rec.category == Some(category)
  }

  /** `count_exportation_by_category`: as many as the unpaged listing of
      that category holds. */
  function CountExportationByCategory(s: seq<Exportation>, category: Category): (n: nat)
    ensures n <= |s|
    ensures n == |s| <==> forall k :: 0 <= k < |s| ==> s[k].category == Some(category)
    ensures n == |ListExportationByCategory(s, category, None, None)|
  {
    CountIsFilterSize(s, InCategory(category));
    var r := ListExportationByCategory(s, category, None, None);
    assert |r| == |multiset(r)| == |multiset(Filter(s, InCategory(category)))|;
    CountWhere(s, InCategory(category))
  }

  /** `list_exportation_by_category(category, limit, offset)`. */
  function ListExportationByCategory(s: seq<Exportation>, category: Category, limit: Option<nat>, offset: Option<nat>): (r: seq<Exportation>)
    ensures Sorted(r, ListOrder)
    ensures forall k :: 0 <= k < |r| ==> r[k].category == Some(category) && r[k] in s
    ensures Truthy(limit) ==> |r| <= limit.value
    ensures !Truthy(limit) && !Truthy(offset) ==> multiset(r) == multiset(Filter(s, InCategory(category)))
    ensures |r| == PageSize(|Filter(s, InCategory(category))|, limit, offset)
    ensures forall k :: 0 <= k < |r| ==> r[k] == SortBy(Filter(s, InCategory(category)), ListOrder)[Skipped(offset) + k]
  {
    ListWhere(s, InCategory(category), ListOrder, limit, offset)
  }

  function CategoryKey(rec: Exportation): (int, Cell, Option<Category>) {
    (rec.year, Some(rec.country), rec.category)
  }

  /** `get_by_year_and_country_and_category`: some record with all three
      values, if there is one. */
  function GetByYearAndCountryAndCategory(s: seq<Exportation>, year: int, country: Cell, category: Category): (r: Option<Exportation>)
    ensures r.Some? <==> exists i :: 0 <= i < |s| && s[i].year == year && Some(s[i].country) == country && s[i].category == Some(category)
    ensures r.Some? ==> r.value in s && r.value.year == year && Some(r.value.country) == country && r.value.category == Some(category)
  {
    FindKey(s, CategoryKey, (year, country, Some(category)))
  }

  /** Every record the ingest adds has no category. */
  lemma IngestAddsNoCategory(fetch: Fetch, store: seq<Exportation>, k: nat)
    requires |store| <= k < |Ingest(fetch, store).state.store|
    ensures Ingest(fetch, store).state.store[k].category.None?
  {
    RunBatchesBuilt(Ingestor, Fresh(store), SourcesWith(fetch, true), k);
  }

  /** Records without a category, appended to a table, leave every
      category's count as it was. */
  lemma UncategorisedInvisible(store: seq<Exportation>, fin: seq<Exportation>, category: Category)
    requires store <= fin
    requires forall k :: |store| <= k < |fin| ==> fin[k].category.None?
    ensures CountExportationByCategory(fin, category) == CountExportationByCategory(store, category)
  {
    var added := fin[|store|..];
    assert fin == store + added;
    assert forall k :: 0 <= k < |added| ==> added[k] == fin[|store| + k];
    CountAppendNone(store, added, InCategory(category));
  }

  /** The ingest writes records with no category, so it adds nothing to any
      category's count. */
  lemma IngestInvisibleByCategory(fetch: Fetch, store: seq<Exportation>, category: Category)
    ensures CountExportationByCategory(Ingest(fetch, store).state.store, category) == CountExportationByCategory(store, category)
  {
    var fin := Ingest(fetch, store).state.store;
    forall k | |store| <= k < |fin|
      ensures fin[k].category.None?
    {
      IngestAddsNoCategory(fetch, store, k);
    }
    UncategorisedInvisible(store, fin, category);
  }

  /** The as-written guard passes a full path to the lookup, which finds
      nothing among records stored under stems. */
  lemma FullPathFindsNothing(s: seq<Exportation>, year: int, country: Cell, i: nat)
    requires i < |Paths| && forall k :: 0 <= k < |s| ==> StemRecord(s[k])
    ensures GetByYearAndCountryAndPath(s, year, country, Paths[i]).None?
  {
    PathsHaveDirectory();
  }
}
