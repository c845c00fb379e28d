/** The `app/importation` package: the import ingestor, which reads one CSV
    per imported product, melts the yearly quantity columns per country and
    writes rounded kilograms per (year, country, category); and the crud
    functions over the importation table. */
module Importation {
  import opened Wrappers
  import opened Text
  import opened Numbers
  import opened Normalise
  import opened Frame
  import opened Store
  import opened Load

  /** The importation constants define neither the `Category` enum nor the
      `CATEGORY_MAPPING` that the ingestor, crud and record import, so a
      category is the text a path-to-category map gives. */
  type Category = string

  /** A row of the importation table. */
  datatype Importation = Importation(year: int, country: string, quantityKg: int, category: Category)

  /** `IMPORTATION_PATHS`, in the order the ingestor reads them. */
  const Paths: seq<string> := [VinhosPath, EspumantesPath, FrescasPath, PassasPath, SucoPath]

  const VinhosPath: string := "download/ImpVinhos.csv"
  const EspumantesPath: string := "download/ImpEspumantes.csv"
  const FrescasPath: string := "download/ImpFrescas.csv"
  const PassasPath: string := "download/ImpPassas.csv"
  const SucoPath: string := "download/ImpSuco.csv"

  /** The CSV separator: ";" for a path containing "ImpSuco", tab otherwise. */
  function Separator(path: string): char {
    if Contains(path, "ImpSuco") then ';' else '\t'
  }

  /** Only the juice file is read with ";"; the other four use tab. */
  lemma SeparatorOfPaths()
    ensures Paths == [VinhosPath, EspumantesPath, FrescasPath, PassasPath, SucoPath]
    ensures Separator(SucoPath) == ';'
    ensures Separator(VinhosPath) == '\t' && Separator(EspumantesPath) == '\t'
    ensures Separator(FrescasPath) == '\t' && Separator(PassasPath) == '\t'
  {
    SucoIsSemicolon();
    VinhosIsTab();
    EspumantesIsTab();
    FrescasIsTab();
    PassasIsTab();
  }

  lemma SucoIsSemicolon()
    ensures Separator(SucoPath) == ';'
  {
    var p := SucoPath;
    assert p[9..][..7] == "ImpSuco";
    ContainsAt(p, "ImpSuco", 9);
  }

  /** A path without a capital S cannot contain "ImpSuco". */
  lemma TabPath(q: string)
    requires 'S' !in q
    ensures Separator(q) == '\t'
  {
    assert "ImpSuco"[3] == 'S';
    NotContainsChar(q, "ImpSuco", 3);
  }

  lemma VinhosIsTab()
    ensures Separator(VinhosPath) == '\t'
  {
    TabPath(VinhosPath);
  }

  lemma EspumantesIsTab()
    ensures Separator(EspumantesPath) == '\t'
  {
    TabPath(EspumantesPath);
  }

  lemma FrescasIsTab()
    ensures Separator(FrescasPath) == '\t'
  {
    TabPath(FrescasPath);
  }

  lemma PassasIsTab()
    ensures Separator(PassasPath) == '\t'
  {
    TabPath(PassasPath);
  }

  /** One row of the frame `_prepare_dataframe` returns. */
  datatype ImpRow = ImpRow(year: int, country: Cell, quantity: int, category: Category)

  /** The identifier column of the melt. */
  function Country(row: Row): Cell {
    CellAt(row, "País")
  }

  const IdVars: seq<string> := ["País"]

  function Melted(t: Table): (r: Result<seq<Long<Cell>>, Failure>)
    ensures r.Failure? <==> "País" !in t.columns
    ensures r.Failure? ==> r.error == MissingColumn("País")
    ensures r.Success? ==> |r.value| == |t.rows| * |YearColumns(t.columns)|
  {
    assert forall c :: c in IdVars <==> c == "País";
    Melt(t, IdVars, Country)
  }

  /** The quantity chain of `_prepare_dataframe`, rounding half to even. */
  function QuantityOfLong(x: Long<Cell>): Result<int, Failure> {
    match x.value
    case None => Failure(NotFinite("nan"))
    case Some(text) => DomainQuantity(text, Rounding)
  }

  /** A melted row survives the year cast and the quantity normaliser. */
  predicate Converts(x: Long<Cell>) {
    Year(x.variable).Success? && QuantityOfLong(x).Success?
  }

  /** The prepared row of one melted row. */
  function RowOf(x: Long<Cell>, category: Category): (p: ImpRow)
    requires Converts(x)
    ensures p.year == Year(x.variable).value && p.country == x.id && p.quantity == QuantityOfLong(x).value
    ensures p.category == category
  {
    ImpRow(Year(x.variable).value, x.id, QuantityOfLong(x).value, category)
  }

  /** The column operations after the `dropna`: the year cast over every row,
      then the quantity over every row; the first to fail ends it. */
  function Convert(kept: seq<Long<Cell>>, category: Category): (r: Result<seq<ImpRow>, Failure>)
    ensures r.Success? <==> forall m :: 0 <= m < |kept| ==> Converts(kept[m])
    ensures r.Success? ==> |r.value| == |kept| && forall m :: 0 <= m < |kept| ==> r.value[m] == RowOf(kept[m], category)
  {
    match MapAll(kept, (x: Long<Cell>) => Year(x.variable))
    case Failure(e) => Failure(e)
    case Success(years) =>
      match MapAll(kept, QuantityOfLong)
      case Failure(e) => Failure(e)
      case Success(quantities) =>
        Success(seq(|kept|, m requires 0 <= m < |kept| => ImpRow(years[m], kept[m].id, quantities[m], category)))
  }

  /** `_prepare_dataframe(df, category)`: melt over the country, drop
      missing quantities, cast the year, normalise and round the quantity,
      rename the country column and add the category. Nothing is filtered:
      there is one row per present quantity cell. */
  function Prepare(t: Table, category: Category): (r: Result<seq<ImpRow>, Failure>)
    ensures "País" !in t.columns ==> r == Failure(MissingColumn("País"))
    ensures r.Success? ==> |r.value| <= |t.rows| * |YearColumns(t.columns)|
    ensures r.Success? ==> forall k :: 0 <= k < |r.value| ==> r.value[k].category == category
  {
    match Melted(t)
    case Failure(e) => Failure(e)
    case Success(longs) => Convert(DropMissing(longs), category)
  }

  /** The melted row of source row `i` under the `j`-th year column. */
  function LongAt(t: Table, i: nat, j: nat): Long<Cell>
    requires i < |t.rows| && j < |YearColumns(t.columns)|
  {
    Long(Country(t.rows[i]), YearColumns(t.columns)[j], CellAt(t.rows[i], YearColumns(t.columns)[j]))
  }

  /** Prepared row `p` comes from source row `i` and year column `j`: the
      quantity cell there is present, and `p` is its conversion. */
  ghost predicate DerivedFrom(t: Table, category: Category, p: ImpRow, i: nat, j: nat) {
    i < |t.rows| && j < |YearColumns(t.columns)| && LongAt(t, i, j).value.Some?
    && Converts(LongAt(t, i, j)) && p == RowOf(LongAt(t, i, j), category)
  }

  /** The year of a derived row is its column name read as a number, its
      quantity the rounded cell and its country the source row's. */
  lemma DerivedFields(t: Table, category: Category, p: ImpRow, i: nat, j: nat)
    requires DerivedFrom(t, category, p, i, j)
    ensures IsDigits(YearColumns(t.columns)[j]) && p.year == DigitsValue(YearColumns(t.columns)[j])
    ensures p.quantity == DomainQuantity(CellAt(t.rows[i], YearColumns(t.columns)[j]).value, Rounding).value
    ensures p.country == CellAt(t.rows[i], "País") && p.category == category
  {
    assert YearColumns(t.columns)[j] in YearColumns(t.columns);
  }

  /** A present melted row that converts is derived from its source cell. */
  lemma LongOrigin(t: Table, category: Category, x: Long<Cell>)
    requires Melted(t).Success? && x in Melted(t).value && x.value.Some? && Converts(x)
    ensures exists i, j :: DerivedFrom(t, category, RowOf(x, category), i, j)
  {
    MeltOriginAt(t, IdVars, Country, x);
    var i, j :| 0 <= i < |t.rows| && 0 <= j < |YearColumns(t.columns)|
                && x == Long(Country(t.rows[i]), YearColumns(t.columns)[j], CellAt(t.rows[i], YearColumns(t.columns)[j]));
    assert LongAt(t, i, j) == x;
    assert DerivedFrom(t, category, RowOf(x, category), i, j);
  }

  /** Every prepared row is derived from one source row and one year column
      with a present quantity cell. */
  lemma PrepareRowOrigin(t: Table, category: Category, p: ImpRow)
    requires Prepare(t, category).Success? && p in Prepare(t, category).value
    ensures exists i, j :: DerivedFrom(t, category, p, i, j)
  {
    var kept := DropMissing(Melted(t).value);
    var rows := Convert(kept, category).value;
    var m :| 0 <= m < |rows| && rows[m] == p;
    assert kept[m] in Melted(t).value && kept[m].value.Some?;
    LongOrigin(t, category, kept[m]);
  }

  /** Each present quantity cell's melted row survives the `dropna`. */
  lemma LongKept(t: Table, i: nat, j: nat)
    requires Melted(t).Success?
    requires i < |t.rows| && j < |YearColumns(t.columns)| && LongAt(t, i, j).value.Some?
    ensures LongAt(t, i, j) in DropMissing(Melted(t).value)
  {
    var longs := Melted(t).value;
    MeltAt(t, IdVars, Country, i, j);
    assert longs[j * |t.rows| + i] == LongAt(t, i, j);
  }

  /** Conversely, every present quantity cell yields a prepared row: the
      import frame drops nothing but missing quantities. */
  lemma PrepareRowKept(t: Table, category: Category, i: nat, j: nat)
    requires Prepare(t, category).Success?
    requires i < |t.rows| && j < |YearColumns(t.columns)| && LongAt(t, i, j).value.Some?
    ensures Converts(LongAt(t, i, j))
    ensures RowOf(LongAt(t, i, j), category) in Prepare(t, category).value
  {
    LongKept(t, i, j);
    var kept := DropMissing(Melted(t).value);
    var m :| 0 <= m < |kept| && kept[m] == LongAt(t, i, j);
    var rows := Convert(kept, category).value;
    assert rows[m] == RowOf(LongAt(t, i, j), category);
  }

  /** The natural key of the duplicate lookup. */
  type Key = (int, Cell, Category)

  function RowKey(p: ImpRow): Option<Key> {
    Some((p.year, p.country, p.category))
  }

  function RecKey(rec: Importation): Key {
    (rec.year, Some(rec.country), rec.category)
  }

  /** `ImportationCreate(...)`: validation needs a string country. */
  function Build(p: ImpRow): (r: Option<Importation>)
    ensures r.Some? <==> p.country.Some?
    ensures r.Some? ==> RecKey(r.value) == RowKey(p).value && r.value.quantityKg == p.quantity
  {
    if p.country.Some? then Some(Importation(p.year, p.country.value, p.quantity, p.category)) else None
  }

  const Ingestor: Loader<ImpRow, Importation, Key> := Loader(RowKey, RecKey, Build)

  /** The lookup key a record is created with is the key it is found under. */
  lemma IngestorSound()
    ensures Sound(Ingestor)
  {
  }

  /** The fetch: the table parsed from a path with a separator, or `None`
      when the download raises. */
  type Fetch = (string, char) -> Option<Table>

  /** One iteration of the path loop up to the row loop: category lookup
      (a KeyError when `categories` lacks the path), fetch, preparation. */
  function Source(categories: map<string, Category>, fetch: Fetch, path: string): (r: Result<seq<ImpRow>, Failure>)
    ensures path !in categories ==> r == Failure(MissingCategory(path))
    ensures r.Success? ==> forall k :: 0 <= k < |r.value| ==> r.value[k].category == categories[path]
  {
    if path !in categories then Failure(MissingCategory(path))
    else match fetch(path, Separator(path))
      case None => Failure(SourceUnavailable(path))
      case Some(t) => Prepare(t, categories[path])
  }

  function Sources(categories: map<string, Category>, fetch: Fetch): (r: seq<Result<seq<ImpRow>, Failure>>)
    ensures |r| == |Paths| && forall i :: 0 <= i < |Paths| ==> r[i] == Source(categories, fetch, Paths[i])
  {
    seq(|Paths|, i requires 0 <= i < |Paths| => Source(categories, fetch, Paths[i]))
  }

  /** `ImportationIngestor.ingest`, given `CATEGORY_MAPPING`. */
  function Ingest(categories: map<string, Category>, fetch: Fetch, store: seq<Importation>): (o: Outcome<Importation>)
    ensures store <= o.state.store
    ensures o.failure.None? <==> forall i :: 0 <= i < |Paths| ==> Source(categories, fetch, Paths[i]).Success?
  {
    RunBatches(Ingestor, Fresh(store), Sources(categories, fetch))
  }

  /** A second ingest over the same files inserts nothing and changes nothing. */
  lemma IngestIdempotent(categories: map<string, Category>, fetch: Fetch, store: seq<Importation>)
    ensures var first := Ingest(categories, fetch, store);
            var again := Ingest(categories, fetch, first.state.store);
            again.state.store == first.state.store && again.state.inserted == 0 && again.failure == first.failure
  {
    IngestorSound();
    RunBatchesIdempotent(Ingestor, store, Sources(categories, fetch));
  }

  /** The ingest never stores two records with the same natural key. */
  lemma IngestKeepsKeysDistinct(categories: map<string, Category>, fetch: Fetch, store: seq<Importation>)
    requires DistinctKeys(store, RecKey)
    ensures DistinctKeys(Ingest(categories, fetch, store).state.store, RecKey)
  {
    IngestorSound();
    RunBatchesKeepsKeysDistinct(Ingestor, store, Sources(categories, fetch));
  }

  /** Every record the ingest writes has the category its file maps to. */
  lemma IngestCategories(categories: map<string, Category>, fetch: Fetch, store: seq<Importation>, k: nat)
    requires |store| <= k < |Ingest(categories, fetch, store).state.store|
    ensures exists i :: 0 <= i < |Paths| && Paths[i] in categories
                        && Ingest(categories, fetch, store).state.store[k].category == categories[Paths[i]]
  {
    var batches := Sources(categories, fetch);
    var rec := Ingest(categories, fetch, store).state.store[k];
    RunBatchesBuilt(Ingestor, Fresh(store), batches, k);
    var b, j :| 0 <= b < |batches| && batches[b].Success? && 0 <= j < |batches[b].value|
                && Build(batches[b].value[j]) == Some(rec);
    assert Source(categories, fetch, Paths[b]).Success?;
  }

  // The crud functions of the importation table.

  /** `create_importation`: the table gains the record, which is returned. */
  function CreateImportation(s: seq<Importation>, data: Importation): (r: (seq<Importation>, Importation))
    ensures r.1 == data
    ensures multiset(r.0) == multiset(s) + multiset{data}
    ensures GetByYearAndCountryAndCategory(r.0, data.year, Some(data.country), data.category).Some?
  {
    CreateThenFind(s, data, RecKey);
    (Create(s, data), data)
  }

  /** `count_importation`. */
  function CountImportation(s: seq<Importation>): (n: nat)
    ensures n == |ListImportation(s, None, None)|
  {
    var r := ListImportation(s, None, None);
    assert |r| == |multiset(r)| == |multiset(s)| == |s|;
    |s|
  }

  function InCategory(category: Category): Importation -> bool {
    (rec: Importation) => rec.category == category
  }

  /** `count_importation_by_category`: as many as the unpaged listing of
      that category holds. */
  function CountImportationByCategory(s: seq<Importation>, category: Category): (n: nat)
    ensures n <= |s|
    ensures n == |s| <==> forall k :: 0 <= k < |s| ==> s[k].category == category
    ensures n == |ListImportationByCategory(s, category, None, None)|
  {
    CountIsFilterSize(s, InCategory(category));
    var r := ListImportationByCategory(s, category, None, None);
    assert |r| == |multiset(r)| == |multiset(Filter(s, InCategory(category)))|;
    CountWhere(s, InCategory(category))
  }

  /** The ORDER BY of both listings: year descending, then country. */
  function ListOrder(rec: Importation): OrderKey {
    OrderKey(rec.year, [rec.country])
  }

  /** `list_importation(limit, offset)`. */
  function ListImportation(s: seq<Importation>, limit: Option<nat>, offset: Option<nat>): (r: seq<Importation>)
    ensures Sorted(r, ListOrder)
    ensures multiset(r) <= multiset(s)
    ensures Truthy(limit) ==> |r| <= limit.value
    ensures !Truthy(limit) && !Truthy(offset) ==> multiset(r) == multiset(s)
    ensures |r| == PageSize(|s|, limit, offset)
    ensures forall k :: 0 <= k < |r| ==> r[k] == SortBy(s, ListOrder)[Skipped(offset) + k]
  {
    List(s, ListOrder, limit, offset)
  }

  /** `list_importation_by_category(category, limit, offset)`. */
  function ListImportationByCategory(s: seq<Importation>, category: Category, limit: Option<nat>, offset: Option<nat>): (r: seq<Importation>)
    ensures Sorted(r, ListOrder)
    ensures forall k :: 0 <= k < |r| ==> r[k].category == category && r[k] in s
    ensures Truthy(limit) ==> |r| <= limit.value
    ensures !Truthy(limit) && !Truthy(offset) ==> multiset(r) == multiset(Filter(s, InCategory(category)))
    ensures |r| == PageSize(|Filter(s, InCategory(category))|, limit, offset)
    ensures forall k :: 0 <= k < |r| ==> r[k] == SortBy(Filter(s, InCategory(category)), ListOrder)[Skipped(offset) + k]
  {
    ListWhere(s, InCategory(category), ListOrder, limit, offset)
  }

  /** `get_by_year_and_country_and_category`: some record with all three
      values, if there is one. */
  function GetByYearAndCountryAndCategory(s: seq<Importation>, year: int, country: Cell, category: Category): (r: Option<Importation>)
    ensures r.Some? <==> exists i :: 0 <= i < |s| && s[i].year == year && Some(s[i].country) == country && s[i].category == category
    ensures r.Some? ==> r.value in s && r.value.year == year && Some(r.value.country) == country && r.value.category == category
  {
    FindKey(s, RecKey, (year, country, category))
  }

  /** `clear_importation`. */
  function ClearImportation(s: seq<Importation>): (r: seq<Importation>)
    ensures |r| == 0
  {
    Clear(s)
  }
}
