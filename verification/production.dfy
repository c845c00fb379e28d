/** The `app/production` package: the production ingestor, which reads the
    single production CSV, classifies each product by the prefix of its
    `control` marker, drops the unclassified rows and writes litres per
    (year, product, category); and the crud functions over the production
    table. */
module Production {
  import opened Wrappers
  import opened Text
  import opened Numbers
  import opened Normalise
  import opened Frame
  import opened Store
  import opened Load

  /** The four production categories. The production constants module is
      not part of this model, so the text each stores is left abstract. */
  datatype Category = VinhoDeMesa | VinhoFinoDeMesaVinifera | Suco | Derivados

  /** A row of the production table. */
  datatype Production = Production(year: int, product: string, quantityLiters: int, category: Category)

  /** `CSV_PATH`. */
  const CsvPath: string := "download/Producao.csv"

  /** `CATEGORY_PREFIXES`, in declaration order (the order of the
      `np.select` conditions). */
  const CategoryPrefixes: seq<(string, Category)> := [
    ("vm_", VinhoDeMesa),
    ("vv_", VinhoFinoDeMesaVinifera),
    ("su_", Suco),
    ("de_", Derivados)
  ]

  /** `REQUIRED_COLUMNS`. */
  const RequiredColumns: seq<string> := ["produto", "control"]

  /** The category `np.select` gives a row: the first prefix its control
      starts with, `None` for the "" default. */
  function Classified(row: Row): Option<Category> {
    match CellAt(row, "control")
    case None => None
    case Some(c) => FirstPrefix(CategoryPrefixes, c)
  }

  /** `str.startswith` over a column with a NaN yields a non-boolean mask,
      which `np.select` rejects with a TypeError. */
  function ControlCheck(row: Row): (r: Result<Option<Category>, Failure>)
    ensures r.Failure? <==> CellAt(row, "control").None?
    ensures r.Failure? ==> r.error == MissingControl
  {
    if CellAt(row, "control").None? then Failure(MissingControl) else Success(Classified(row))
  }

  /** The four prefixes in full: each selects its own category, and a control
      with none of them is left unclassified. */
  lemma ClassifiedCases(row: Row, c: string)
    requires CellAt(row, "control") == Some(c)
    ensures StartsWith(c, "vm_") ==> Classified(row) == Some(VinhoDeMesa)
    ensures StartsWith(c, "vv_") ==> Classified(row) == Some(VinhoFinoDeMesaVinifera)
    ensures StartsWith(c, "su_") ==> Classified(row) == Some(Suco)
    ensures StartsWith(c, "de_") ==> Classified(row) == Some(Derivados)
    ensures Classified(row).None? <==> !StartsWith(c, "vm_") && !StartsWith(c, "vv_") && !StartsWith(c, "su_") && !StartsWith(c, "de_")
  {
    var ps := CategoryPrefixes;
    assert |ps| == 4 && ps[0].0 == "vm_" && ps[1].0 == "vv_" && ps[2].0 == "su_" && ps[3].0 == "de_";
    assert StartsWith(c, "vv_") ==> !StartsWith(c, "vm_");
    assert StartsWith(c, "su_") ==> !StartsWith(c, "vm_") && !StartsWith(c, "vv_");
    assert StartsWith(c, "de_") ==> !StartsWith(c, "vm_") && !StartsWith(c, "vv_") && !StartsWith(c, "su_");
  }

  /** One row of the frame `_prepare_dataframe` returns. */
  datatype ProdRow = ProdRow(year: int, product: Cell, quantity: int, category: Option<Category>)

  /** The identifier columns of the melt: the product and the category just
      computed for the row. */
  function Ids(row: Row): (Cell, Option<Category>) {
    (CellAt(row, "produto"), Classified(row))
  }

  predicate HasCategory(row: Row) {
    Classified(row).Some?
  }

  /** `df[df["category"] != ""]`. */
  function ClassifiedRows(rows: seq<Row>): (r: seq<Row>)
    ensures forall k :: 0 <= k < |r| ==> HasCategory(r[k]) && r[k] in rows
    ensures forall k :: 0 <= k < |rows| && HasCategory(rows[k]) ==> rows[k] in r
  {
    var r := Filter(rows, HasCategory);
    assert forall k :: 0 <= k < |r| ==> r[k] in multiset(rows);
    r
  }

  /** The melt over the classified rows; the `category` column was just added,
      so only `produto` can be missing and that was checked before. */
  function Melted(t: Table): (r: Result<seq<Long<(Cell, Option<Category>)>>, Failure>)
    ensures r.Failure? <==> "produto" !in t.columns
    ensures r.Success? ==> |r.value| == |ClassifiedRows(t.rows)| * |YearColumns(t.columns)|
  {
    assert forall c :: c in ["produto"] <==> c == "produto";
    Melt(Table(t.columns, ClassifiedRows(t.rows)), ["produto"], Ids)
  }

  /** The quantity cast of `_prepare_dataframe`. */
  function QuantityOfLong<P>(x: Long<P>): Result<int, Failure> {
    match x.value
    case None => Failure(NotFinite("nan"))
    case Some(text) => PlainInt(text)
  }

  predicate Converts<P>(x: Long<P>) {
    Year(x.variable).Success? && QuantityOfLong(x).Success?
  }

  /** The prepared row of one melted row. */
  function RowOf(x: Long<(Cell, Option<Category>)>): (p: ProdRow)
    requires Converts(x)
    ensures p.year == Year(x.variable).value && p.product == x.id.0 && p.quantity == QuantityOfLong(x).value
    ensures p.category == x.id.1
  {
    ProdRow(Year(x.variable).value, x.id.0, QuantityOfLong(x).value, x.id.1)
  }

  /** The two `astype(int)` casts after the `dropna`; the first to fail ends it. */
  function Convert(kept: seq<Long<(Cell, Option<Category>)>>): (r: Result<seq<ProdRow>, Failure>)
    ensures r.Success? <==> forall m :: 0 <= m < |kept| ==> Converts(kept[m])
    ensures r.Success? ==> |r.value| == |kept| && forall m :: 0 <= m < |kept| ==> r.value[m] == RowOf(kept[m])
  {
    match MapAll(kept, (x: Long<(Cell, Option<Category>)>) => Year(x.variable))
    case Failure(e) => Failure(e)
    case Success(years) =>
      match MapAll(kept, QuantityOfLong)
      case Failure(e) => Failure(e)
      case Success(quantities) =>
        Success(seq(|kept|, m requires 0 <= m < |kept| => ProdRow(years[m], kept[m].id.0, quantities[m], kept[m].id.1)))
  }

  /** Every melted row carries the category of a classified row. */
  lemma MeltedCategories(t: Table)
    requires Melted(t).Success?
    ensures forall k :: 0 <= k < |Melted(t).value| ==> Melted(t).value[k].id.1.Some?
  {
    var longs := Melted(t).value;
    var kept := Table(t.columns, ClassifiedRows(t.rows));
    forall k | 0 <= k < |longs|
      ensures longs[k].id.1.Some?
    {
      assert longs[k] in longs;
      MeltOriginAt(kept, ["produto"], Ids, longs[k]);
    }
  }

  /** `_prepare_dataframe(df)`: check the required columns, classify every
      row, drop the unclassified ones, melt over product and category, drop
      missing quantities and cast year and quantity to int. */
  function Prepare(t: Table): (r: Result<seq<ProdRow>, Failure>)
    ensures FirstMissing(t.columns, RequiredColumns).Some? ==> r.Failure? && r.error.MissingColumn?
    ensures FirstMissing(t.columns, RequiredColumns).None? && (exists i :: 0 <= i < |t.rows| && CellAt(t.rows[i], "control").None?)
            ==> r == Failure(MissingControl)
    ensures r.Success? ==> forall k :: 0 <= k < |r.value| ==> r.value[k].category.Some?
  {
    match FirstMissing(t.columns, RequiredColumns)
    case Some(c) => Failure(MissingColumn(c))
    case None =>
      match MapAll(t.rows, ControlCheck)
      case Failure(e) => Failure(e)
      case Success(_) =>
        assert "produto" in RequiredColumns;
        match Melted(t)
        case Failure(e) => Failure(e)
        case Success(longs) =>
          MeltedCategories(t);
          var kept := DropMissing(longs);
          match Convert(kept)
          case Failure(e) => Failure(e)
          case Success(rows) =>
            assert forall m :: 0 <= m < |kept| ==> kept[m] in longs;
            Success(rows)
  }

  /** The melted row of classified row `i` under the `j`-th year column. */
  function LongAt(t: Table, i: nat, j: nat): Long<(Cell, Option<Category>)>
    requires i < |t.rows| && j < |YearColumns(t.columns)|
  {
    Long(Ids(t.rows[i]), YearColumns(t.columns)[j], CellAt(t.rows[i], YearColumns(t.columns)[j]))
  }

  /** Prepared row `p` comes from source row `i`, which is classified, and
      year column `j`, whose cell in that row is present. */
  ghost predicate DerivedFrom(t: Table, p: ProdRow, i: nat, j: nat) {
    i < |t.rows| && j < |YearColumns(t.columns)| && HasCategory(t.rows[i]) && LongAt(t, i, j).value.Some?
    && Converts(LongAt(t, i, j)) && p == RowOf(LongAt(t, i, j))
  }

  /** A present melted row that converts is derived from a classified source
      row's cell. */
  lemma LongOrigin(t: Table, x: Long<(Cell, Option<Category>)>)
    requires Melted(t).Success? && x in Melted(t).value && x.value.Some? && Converts(x)
    ensures exists i, j :: DerivedFrom(t, RowOf(x), i, j)
  {
    var kept := Table(t.columns, ClassifiedRows(t.rows));
    MeltOriginAt(kept, ["produto"], Ids, x);
    var i, j :| 0 <= i < |kept.rows| && 0 <= j < |YearColumns(t.columns)|
                && x == Long(Ids(kept.rows[i]), YearColumns(t.columns)[j], CellAt(kept.rows[i], YearColumns(t.columns)[j]));
    assert kept.rows[i] in t.rows;
    var n :| 0 <= n < |t.rows| && t.rows[n] == kept.rows[i];
    assert LongAt(t, n, j) == x;
    assert DerivedFrom(t, RowOf(x), n, j);
  }

  /** A successful preparation is the conversion of the kept melted rows. */
  lemma PrepareIsConvert(t: Table)
    requires Prepare(t).Success?
    ensures Melted(t).Success? && Convert(DropMissing(Melted(t).value)).Success?
    ensures Prepare(t).value == Convert(DropMissing(Melted(t).value)).value
  {
  }

  /** Every prepared row is derived from one classified source row and one
      year column with a present quantity cell. */
  lemma PrepareRowOrigin(t: Table, p: ProdRow)
    requires Prepare(t).Success? && p in Prepare(t).value
    ensures exists i, j :: DerivedFrom(t, p, i, j)
  {
    PrepareIsConvert(t);
    var kept := DropMissing(Melted(t).value);
    var rows := Convert(kept).value;
    var m :| 0 <= m < |rows| && rows[m] == p;
    assert kept[m] in Melted(t).value && kept[m].value.Some?;
    LongOrigin(t, kept[m]);
  }

  /** The melted row of a classified source row `i` under the `j`-th year
      column sits at some index `k` of the melt. */
  lemma MeltedIndex(t: Table, i: nat, j: nat) returns (k: nat)
    requires Melted(t).Success?
    requires i < |t.rows| && j < |YearColumns(t.columns)| && HasCategory(t.rows[i])
    ensures k < |Melted(t).value| && Melted(t).value[k] == LongAt(t, i, j)
  {
    var c := ClassifiedRows(t.rows);
    var kept := Table(t.columns, c);
    assert Melted(t) == Melt(kept, ["produto"], Ids);
    assert t.rows[i] in c;
    var n :| 0 <= n < |c| && c[n] == t.rows[i];
    MeltAt(kept, ["produto"], Ids, n, j);
    ProductNonNegative(j, |c|);
    k := j * |c| + n;
    assert Melt(kept, ["produto"], Ids).value[k] == LongAt(t, i, j);
  }

  /** Each present cell of a classified row survives the melt and the `dropna`. */
  lemma LongKept(t: Table, i: nat, j: nat)
    requires Melted(t).Success?
    requires i < |t.rows| && j < |YearColumns(t.columns)| && HasCategory(t.rows[i]) && LongAt(t, i, j).value.Some?
    ensures LongAt(t, i, j) in DropMissing(Melted(t).value)
  {
    var k := MeltedIndex(t, i, j);
    PresentKept(Melted(t).value, k);
  }

  /** A present melted row survives the `dropna`. */
  lemma PresentKept<P>(longs: seq<Long<P>>, k: nat)
    requires k < |longs| && longs[k].value.Some?
    ensures longs[k] in DropMissing(longs)
  {
  }

  /** Conversely, every present cell of a classified row yields a prepared row. */
  lemma PrepareRowKept(t: Table, i: nat, j: nat)
    requires Prepare(t).Success?
    requires i < |t.rows| && j < |YearColumns(t.columns)| && HasCategory(t.rows[i]) && LongAt(t, i, j).value.Some?
    ensures Converts(LongAt(t, i, j))
    ensures RowOf(LongAt(t, i, j)) in Prepare(t).value
  {
    LongKept(t, i, j);
    var kept := DropMissing(Melted(t).value);
    PrepareIsConvert(t);
    var m :| 0 <= m < |kept| && kept[m] == LongAt(t, i, j);
    var rows := Convert(kept).value;
    assert rows[m] == RowOf(LongAt(t, i, j));
  }

  /** An unclassified row contributes nothing: no prepared row is derived
      from it. */
  lemma UnclassifiedRowDropped(t: Table, i: nat, p: ProdRow)
    requires i < |t.rows| && !HasCategory(t.rows[i])
    ensures forall j :: !DerivedFrom(t, p, i, j)
  {
  }

  /** The natural key of the duplicate lookup. */
  type Key = (int, Cell, Option<Category>)

  function RowKey(p: ProdRow): Option<Key> {
    Some((p.year, p.product, p.category))
  }

  function RecKey(rec: Production): Key {
    (rec.year, Some(rec.product), Some(rec.category))
  }

  /** `ProductionCreate(...)`: validation needs a string product. */
  function Build(p: ProdRow): (r: Option<Production>)
    ensures r.Some? <==> p.product.Some? && p.category.Some?
    ensures r.Some? ==> RecKey(r.value) == RowKey(p).value && r.value.quantityLiters == p.quantity
  {
    if p.product.Some? && p.category.Some? then
      Some(Production(p.year, p.product.value, p.quantity, p.category.value))
    else None
  }

  const Ingestor: Loader<ProdRow, Production, Key> := Loader(RowKey, RecKey, Build)

  /** The lookup key a record is created with is the key it is found under. */
  lemma IngestorSound()
    ensures Sound(Ingestor)
  {
  }

  /** The fetch and the preparation; `fetched` is what `fetch_csv()` returned
      for `CSV_PATH`, `None` when it raised. */
  function Source(fetched: Option<Table>): Result<seq<ProdRow>, Failure> {
    match fetched
    case None => Failure(SourceUnavailable(CsvPath))
    case Some(t) => Prepare(t)
  }

  /** `ProductionIngestor.ingest`. */
  function Ingest(fetched: Option<Table>, store: seq<Production>): (o: Outcome<Production>)
    ensures store <= o.state.store
    ensures o.failure.None? <==> Source(fetched).Success?
    ensures o.failure.Some? ==> o.state.store == store
  {
    RunBatches(Ingestor, Fresh(store), [Source(fetched)])
  }

  /** A second ingest of the same file inserts nothing and changes nothing. */
  lemma IngestIdempotent(fetched: Option<Table>, store: seq<Production>)
    ensures var first := Ingest(fetched, store);
            var again := Ingest(fetched, first.state.store);
            again.state.store == first.state.store && again.state.inserted == 0 && again.failure == first.failure
  {
    IngestorSound();
    RunBatchesIdempotent(Ingestor, store, [Source(fetched)]);
  }

  /** The ingest never stores two records with the same natural key. */
  lemma IngestKeepsKeysDistinct(fetched: Option<Table>, store: seq<Production>)
    requires DistinctKeys(store, RecKey)
    ensures DistinctKeys(Ingest(fetched, store).state.store, RecKey)
  {
    IngestorSound();
    RunBatchesKeepsKeysDistinct(Ingestor, store, [Source(fetched)]);
  }

  /** Every record the ingest writes comes from a classified row of the file. */
  lemma IngestStoresClassifiedRows(t: Table, store: seq<Production>, k: nat)
    requires |store| <= k < |Ingest(Some(t), store).state.store|
    ensures exists p, i, j :: DerivedFrom(t, p, i, j) && Build(p) == Some(Ingest(Some(t), store).state.store[k])
  {
    var batches := [Source(Some(t))];
    var rec := Ingest(Some(t), store).state.store[k];
    RunBatchesBuilt(Ingestor, Fresh(store), batches, k);
    var b, j :| 0 <= b < |batches| && batches[b].Success? && 0 <= j < |batches[b].value|
                && Build(batches[b].value[j]) == Some(rec);
    var p := batches[b].value[j];
    assert p in Prepare(t).value;
    PrepareRowOrigin(t, p);
  }

  // The crud functions of the production table.

  /** `create_production`: the table gains the record, which is returned. */
  function CreateProduction(s: seq<Production>, data: Production): (r: (seq<Production>, Production))
    ensures r.1 == data
    ensures multiset(r.0) == multiset(s) + multiset{data}
    ensures GetBy(r.0, data.year, Some(data.product), Some(data.category)).Some?
  {
    CreateThenFind(s, data, RecKey);
    (Create(s, data), data)
  }

  /** The ORDER BY of both listings: year descending, then product. */
  function ListOrder(rec: Production): OrderKey {
    OrderKey(rec.year, [rec.product])
  }

  /** `list_productions(limit, offset)`. */
  function ListProductions(s: seq<Production>, limit: Option<nat>, offset: Option<nat>): (r: seq<Production>)
    ensures Sorted(r, ListOrder)
    ensures multiset(r) <= multiset(s)
    ensures Truthy(limit) ==> |r| <= limit.value
    ensures !Truthy(limit) && !Truthy(offset) ==> multiset(r) == multiset(s)
    ensures |r| == PageSize(|s|, limit, offset)
    ensures forall k :: 0 <= k < |r| ==> r[k] == SortBy(s, ListOrder)[Skipped(offset) + k]
  {
    List(s, ListOrder, limit, offset)
  }

  function InCategory(category: Category): Production -> bool {
    (rec: Production) => rec.category == category
  }

  /** `list_productions_by_category(category, limit, offset)`. */
  function ListProductionsByCategory(s: seq<Production>, category: Category, limit: Option<nat>, offset: Option<nat>): (r: seq<Production>)
    ensures Sorted(r, ListOrder)
    ensures forall k :: 0 <= k < |r| ==> r[k].category == category && r[k] in s
    ensures Truthy(limit) ==> |r| <= limit.value
    ensures !Truthy(limit) && !Truthy(offset) ==> multiset(r) == multiset(Filter(s, InCategory(category)))
    ensures |r| == PageSize(|Filter(s, InCategory(category))|, limit, offset)
    ensures forall k :: 0 <= k < |r| ==> r[k] == SortBy(Filter(s, InCategory(category)), ListOrder)[Skipped(offset) + k]
  {
    ListWhere(s, InCategory(category), ListOrder, limit, offset)
  }

  /** `get_by(year, product, category)`: some record with all three values,
      if there is one. */
  function GetBy(s: seq<Production>, year: int, product: Cell, category: Option<Category>): (r: Option<Production>)
    ensures r.Some? <==> exists i :: 0 <= i < |s| && s[i].year == year && Some(s[i].product) == product && Some(s[i].category) == category
    ensures r.Some? ==> r.value in s && r.value.year == year && Some(r.value.product) == product && Some(r.value.category) == category
  {
    FindKey(s, RecKey, (year, product, category))
  }

  /** `clear_production`. */
  function ClearProduction(s: seq<Production>): (r: seq<Production>)
    ensures |r| == 0
  {
    Clear(s)
  }

  /** `count_productions`. */
  function CountProductions(s: seq<Production>): (n: nat)
    ensures n == |ListProductions(s, None, None)|
  {
    var r := ListProductions(s, None, None);
    assert |r| == |multiset(r)| == |multiset(s)| == |s|;
    |s|
  }

  /** `count_productions_by_category`: as many as the unpaged listing of
      that category holds. */
  function CountProductionsByCategory(s: seq<Production>, category: Category): (n: nat)
    ensures n <= |s|
    ensures n == |s| <==> forall k :: 0 <= k < |s| ==> s[k].category == category
    ensures n == |ListProductionsByCategory(s, category, None, None)|
  {
    CountIsFilterSize(s, InCategory(category));
    var r := ListProductionsByCategory(s, category, None, None);
    assert |r| == |multiset(r)| == |multiset(Filter(s, InCategory(category)))|;
    CountWhere(s, InCategory(category))
  }
}
