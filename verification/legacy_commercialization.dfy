/** The legacy `CommercializationIngestor` of `app/services/embrapa` and the
    crud functions of `app/crud/commercialization.py`: one CSV file, melted
    over "Produto", stored per (year, product). */
module LegacyCommercialization {
  import opened Wrappers
  import opened Text
  import opened Numbers
  import opened Normalise
  import opened Frame
  import opened Store
  import opened Load
  import opened LegacyBase

  /** A row of the commercialization table. */
  datatype Commercialization = Commercialization(year: int, product: string, quantityLiters: Float)

  /** `CSV_PATH`, the single source file. */
  const CsvPath: string := "download/Comercio.csv"

  /** The identifier column of the melt. */
  const Product: string := "Produto"

  /** `reshape(df)`: the melt over "Produto"; one long row per (source row,
      year column), carrying the row's product, or a KeyError when the
      column is missing. */
  function ReshapeCommercialization(t: Table): (r: Result<seq<Long<Cell>>, Failure>)
    ensures r.Failure? <==> Product !in t.columns
    ensures r.Success? ==> |r.value| == |t.rows| * |YearColumns(t.columns)|
    ensures r.Success? ==> forall k :: 0 <= k < |r.value| ==> r.value[k].id in ColumnCells(t, Product)
  {
    if Product in t.columns then
      ReshapeIds(t, Product);
      Reshape(t, Product)
    else Reshape(t, Product)
  }

  /** The lookup key: year and product only. */
  type Key = (int, Cell)

  function RecKey(rec: Commercialization): Key {
    (rec.year, Some(rec.product))
  }

  function RowKey(l: Long<Cell>): Option<Key> {
    match RowYear(l.variable)
    case None => None
    case Some(y) => Some((y, l.id))
  }

  /** The rest of the per-row `try` after the guard: the float of the
      comma-swapped cell text, with no sentinel handling, and validation of a
      string product. A failure is a ValueError, logged. */
  function Build(l: Long<Cell>): (r: Option<Commercialization>)
    ensures r.Some? <==> RowYear(l.variable).Some? && l.id.Some? && PlainFloat(l.value).Success?
    ensures r.Some? ==> r.value.year == RowYear(l.variable).value && Some(r.value.product) == l.id
    ensures r.Some? ==> r.value.quantityLiters == PlainFloat(l.value).value
  {
    match (RowYear(l.variable), l.id, PlainFloat(l.value))
    case (Some(y), Some(p), Success(q)) => Some(Commercialization(y, p, q))
    case _ => None
  }

  const Ingestor: Loader<Long<Cell>, Commercialization, Key> := Loader(RowKey, RecKey, Build)

  /** The guard finds a record under the key it was created with. */
  lemma IngestorSound()
    ensures Sound(Ingestor)
  {
  }

  /** A sentinel is not a number here: a "nd" cell makes the row fail and
      only be logged, while a missing cell is stored as NaN. */
  lemma SentinelIsNotZero(y: string, p: string)
    requires RowYear(y).Some?
    ensures Build(Long(Some(p), y, Some("nd"))).None?
    ensures Build(Long(Some(p), y, None)).Some? && Build(Long(Some(p), y, None)).value.quantityLiters.NaN?
  {
    var nd := Replace("nd", ',', '.');
    assert nd == "nd";
    assert |Lower(nd)| == 2 && !IsDigit(nd[0]);
    assert ParseFloat(nd).None?;
  }

  /** `fetch_csv()` then `reshape`, both outside the row handler. */
  function Source(fetch: Fetch): (r: Result<seq<Long<Cell>>, Failure>)
    ensures FetchCsv(fetch, CsvPath).None? ==> r == Failure(SourceUnavailable(CsvPath))
    ensures FetchCsv(fetch, CsvPath).Some? ==> r == ReshapeCommercialization(FetchCsv(fetch, CsvPath).value)
  {
    match FetchCsv(fetch, CsvPath)
    case None => Failure(SourceUnavailable(CsvPath))
    case Some(t) => ReshapeCommercialization(t)
  }

  /** `CommercializationIngestor.ingest`. A failed download or melt ends the
      run before any row. */
  function IngestCommercialization(fetch: Fetch, store: seq<Commercialization>): (o: Outcome<Commercialization>)
    ensures store <= o.state.store
    ensures o.failure.None? <==> Source(fetch).Success?
    ensures o.failure.Some? ==> o.state.store == store && Total(o.state) == 0
    ensures o.failure.None? ==> Total(o.state) == |Source(fetch).value|
  {
    RunBatchesIsRun(Ingestor, Fresh(store), [Source(fetch)]);
    RunBatches(Ingestor, Fresh(store), [Source(fetch)])
  }

  /** A second ingest of the same file inserts nothing and changes nothing. */
  lemma IngestCommercializationIdempotent(fetch: Fetch, store: seq<Commercialization>)
    ensures var first := IngestCommercialization(fetch, store);
            var again := IngestCommercialization(fetch, first.state.store);
            again.state.store == first.state.store && again.state.inserted == 0 && again.failure == first.failure
  {
    IngestorSound();
    RunBatchesIdempotent(Ingestor, store, [Source(fetch)]);
  }

  /** The ingest never stores two records for one (year, product). */
  lemma IngestCommercializationKeepsKeysDistinct(fetch: Fetch, store: seq<Commercialization>)
    requires DistinctKeys(store, RecKey)
    ensures DistinctKeys(IngestCommercialization(fetch, store).state.store, RecKey)
  {
    IngestorSound();
    RunBatchesKeepsKeysDistinct(Ingestor, store, [Source(fetch)]);
  }

  // The crud functions of `app/crud/commercialization.py`.

  /** `create_commercialization`: the table gains the record, which is
      returned and can then be looked up. */
  function CreateCommercialization(s: seq<Commercialization>, data: Commercialization): (r: (seq<Commercialization>, Commercialization))
    ensures r.1 == data
    ensures multiset(r.0) == multiset(s) + multiset{data}
    ensures GetByYearAndProduct(r.0, data.year, Some(data.product)).Some?
  {
    CreateThenFind(s, data, RecKey);
    (Create(s, data), data)
  }

  /** `list_commercializations`: every record, unfiltered. */
  function ListCommercializations(s: seq<Commercialization>): (r: seq<Commercialization>)
    ensures multiset(r) == multiset(s)
  {
    ListAll(s)
  }

  /** `get_by_year_and_product`. */
  function GetByYearAndProduct(s: seq<Commercialization>, year: int, product: Cell): (r: Option<Commercialization>)
    ensures r.Some? <==> exists i :: 0 <= i < |s| && s[i].year == year && Some(s[i].product) == product
    ensures r.Some? ==> r.value in s && r.value.year == year && Some(r.value.product) == product
  {
    FindKey(s, RecKey, (year, product))
  }

  /** `clear_commercialization`. */
  function ClearCommercialization(s: seq<Commercialization>): (r: seq<Commercialization>)
    ensures |r| == 0
  {
    Clear(s)
  }
}
