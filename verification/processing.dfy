/** The `app/processing` package: the grape-processing ingestor, which reads
    one CSV per grape category, classifies each cultivar by the prefix of its
    `control` marker, and writes kilograms per (year, cultivar, category,
    subcategory); and the crud functions over the processing table. */
module Processing {
  import opened Wrappers
  import opened Text
  import opened Numbers
  import opened Normalise
  import opened Frame
  import opened Store
  import opened Load

  /** `Category` of the processing constants. */
  datatype Category = Vinifera | Americanas | Mesa | SemClassificacao

  /** `Subcategory` of the processing constants. */
  datatype Subcategory = Tintas | Brancas | BrancasERosadas

  /** The member name an enum column stores, and so sorts by. */
  function CategoryName(c: Category): string {
    match c
    case Vinifera => "VINIFERA"
    case Americanas => "AMERICANAS"
    case Mesa => "MESA"
    case SemClassificacao => "SEM_CLASSIFICACAO"
  }

  function SubcategoryName(s: Subcategory): string {
    match s
    case Tintas => "TINTAS"
    case Brancas => "BRANCAS"
    case BrancasERosadas => "BRANCAS_E_ROSADAS"
  }

  /** A row of the processing table. */
  datatype Processing = Processing(year: int, cultivate: string, quantityKg: int, category: Category, subcategory: Subcategory)

  /** `PATHS`, in the order the ingestor reads them. */
  const Paths: seq<string> := [
    "download/ProcessaViniferas.csv",
    "download/ProcessaAmericanas.csv",
    "download/ProcessaMesa.csv",
    "download/ProcessaSemclass.csv"
  ]

  /** `CATEGORIES`: the category of every row of a source file. */
  const Categories: map<string, Category> := map[
    "download/ProcessaViniferas.csv" := Vinifera,
    "download/ProcessaAmericanas.csv" := Americanas,
    "download/ProcessaMesa.csv" := Mesa,
    "download/ProcessaSemclass.csv" := SemClassificacao
  ]

  /** `SUBCATEGORY_PREFIXES`, each table in declaration order; the `.get`
      default gives SEM_CLASSIFICACAO the empty table. */
  function SubcategoryPrefixes(c: Category): seq<(string, Subcategory)> {
    match c
    case Americanas => [("ti_", Tintas), ("br_", BrancasERosadas)]
    case Mesa => [("ti_", Tintas), ("br_", Brancas)]
    case Vinifera => [("ti_", Tintas), ("br_", BrancasERosadas)]
    case SemClassificacao => []
  }

  /** The CSV separator: ";" for a path containing "Viniferas", tab otherwise. */
  function Separator(path: string): char {
    if Contains(path, "Viniferas") then ';' else '\t'
  }

  /** Only the Viniferas file is read with ";"; the other three use tab. */
  lemma SeparatorOfPaths()
    ensures Separator(Paths[0]) == ';'
    ensures forall i :: 1 <= i < |Paths| ==> Separator(Paths[i]) == '\t'
  {
    ViniferasIsSemicolon();
    forall i | 1 <= i < |Paths|
      ensures Separator(Paths[i]) == '\t'
    {
      if i == 1 { AmericanasIsTab(); }
      else if i == 2 { MesaIsTab(); }
      else { SemclassIsTab(); }
    }
  }

  lemma ViniferasIsSemicolon()
    ensures Separator("download/ProcessaViniferas.csv") == ';'
  {
    var p := "download/ProcessaViniferas.csv";
    assert p[17..][..9] == "Viniferas";
    ContainsAt(p, "Viniferas", 17);
  }

  /** A path without a capital V cannot contain "Viniferas". */
  lemma TabPath(q: string)
    requires 'V' !in q
    ensures Separator(q) == '\t'
  {
    assert "Viniferas"[0] == 'V';
    NotContainsChar(q, "Viniferas", 0);
  }

  lemma AmericanasIsTab()
    ensures Separator("download/ProcessaAmericanas.csv") == '\t'
  {
    TabPath("download/ProcessaAmericanas.csv");
  }

  lemma MesaIsTab()
    ensures Separator("download/ProcessaMesa.csv") == '\t'
  {
    TabPath("download/ProcessaMesa.csv");
  }

  lemma SemclassIsTab()
    ensures Separator("download/ProcessaSemclass.csv") == '\t'
  {
    TabPath("download/ProcessaSemclass.csv");
  }

  /** Every path has a category, each its own. */
  lemma CategoriesOfPaths()
    ensures forall i :: 0 <= i < |Paths| ==> Paths[i] in Categories
    ensures Categories[Paths[3]] == SemClassificacao
    ensures forall i :: 0 <= i < 3 ==> Categories[Paths[i]] != SemClassificacao
  {
  }

  /** `_extract_subcategory(category, control)`: the subcategory of the first
      prefix in the category's table that `control` starts with, `None` for
      the "" it returns when none matches. A NaN control has no `startswith`:
      the AttributeError escapes as soon as the table has an entry to try. */
  function ExtractSubcategory(category: Category, control: Cell): (r: Result<Option<Subcategory>, Failure>)
    ensures r.Failure? <==> SubcategoryPrefixes(category) != [] && control.None?
    ensures r.Success? && r.value.Some? ==> control.Some? && category != SemClassificacao
  {
    var prefixes := SubcategoryPrefixes(category);
    if |prefixes| == 0 then Success(None)
    else match control
      case None => Failure(MissingControl)
      case Some(c) => Success(FirstPrefix(prefixes, c))
  }

  /** The prefix tables in full: "ti_" is red for every classified category,
      "br_" is white-and-rosé except for table grapes, where it is white, and
      any other control leaves the subcategory empty. */
  lemma ExtractSubcategoryCases(category: Category, control: string)
    requires category != SemClassificacao
    ensures StartsWith(control, "ti_") ==> ExtractSubcategory(category, Some(control)) == Success(Some(Tintas))
    ensures StartsWith(control, "br_") ==>
              ExtractSubcategory(category, Some(control)) == Success(Some(if category == Mesa then Brancas else BrancasERosadas))
    ensures !StartsWith(control, "ti_") && !StartsWith(control, "br_") ==> ExtractSubcategory(category, Some(control)) == Success(None)
  {
    var ps := SubcategoryPrefixes(category);
    assert |ps| == 2 && ps[0].0 == "ti_" && ps[1].0 == "br_";
  }

  /** The category with no prefix table never gets a subcategory. */
  lemma SemClassificacaoHasNoSubcategory(control: Cell)
    ensures ExtractSubcategory(SemClassificacao, control) == Success(None)
  {
  }

  /** One row of the frame `_prepare_dataframe` returns. */
  datatype ProcRow = ProcRow(year: int, cultivar: Cell, quantity: int, category: Category, subcategory: Option<Subcategory>)

  /** The identifier columns of the melt: cultivar and control. */
  function Ids(row: Row): (Cell, Cell) {
    (CellAt(row, "cultivar"), CellAt(row, "control"))
  }

  /** The quantity chain of `_prepare_dataframe`, truncating. */
  function QuantityOfLong(x: Long<(Cell, Cell)>): Result<int, Failure> {
    match x.value
    case None => Failure(NotFinite("nan"))
    case Some(text) => DomainQuantity(text, Truncating)
  }

  function SubcategoryOfLong(category: Category, x: Long<(Cell, Cell)>): Result<Option<Subcategory>, Failure> {
    ExtractSubcategory(category, x.id.1)
  }

  /** A melted row survives the year cast, the quantity normaliser and the
      subcategory extraction. */
  predicate Converts(x: Long<(Cell, Cell)>, category: Category) {
    Year(x.variable).Success? && QuantityOfLong(x).Success? && SubcategoryOfLong(category, x).Success?
  }

  /** The prepared row of one melted row. */
  function RowOf(x: Long<(Cell, Cell)>, category: Category): (p: ProcRow)
    requires Converts(x, category)
    ensures p.year == Year(x.variable).value && p.cultivar == x.id.0 && p.quantity == QuantityOfLong(x).value
    ensures p.category == category && p.subcategory == SubcategoryOfLong(category, x).value
  {
    ProcRow(Year(x.variable).value, x.id.0, QuantityOfLong(x).value, category, SubcategoryOfLong(category, x).value)
  }

  /** The column operations of `_prepare_dataframe` after the `dropna`: the
      year cast over every row, then the quantity over every row, then the
      subcategory over every row; the first column to fail ends it. */
  function Convert(kept: seq<Long<(Cell, Cell)>>, category: Category): (r: Result<seq<ProcRow>, Failure>)
    ensures r.Success? <==> forall m :: 0 <= m < |kept| ==> Converts(kept[m], category)
    ensures r.Success? ==> |r.value| == |kept| && forall m :: 0 <= m < |kept| ==> r.value[m] == RowOf(kept[m], category)
  {
    match MapAll(kept, (x: Long<(Cell, Cell)>) => Year(x.variable))
    case Failure(e) => Failure(e)
    case Success(years) =>
      match MapAll(kept, QuantityOfLong)
      case Failure(e) => Failure(e)
      case Success(quantities) =>
        match MapAll(kept, (x: Long<(Cell, Cell)>) => SubcategoryOfLong(category, x))
        case Failure(e) => Failure(e)
        case Success(subcategories) =>
          Success(seq(|kept|, m requires 0 <= m < |kept| => ProcRow(years[m], kept[m].id.0, quantities[m], category, subcategories[m])))
  }

  /** The filter at the end of `_prepare_dataframe`: drop an empty
      subcategory unless the category is SEM_CLASSIFICACAO. */
  predicate Kept(p: ProcRow) {
    p.subcategory.Some? || p.category == SemClassificacao
  }

  /** The rows the filter keeps all carry the file's category, and have an
      empty subcategory exactly when that category is SEM_CLASSIFICACAO. */
  lemma KeptRows(rows: seq<ProcRow>, category: Category)
    requires forall m :: 0 <= m < |rows| ==> rows[m].category == category
    requires forall m :: 0 <= m < |rows| ==> (category == SemClassificacao ==> rows[m].subcategory.None?)
    ensures forall k :: 0 <= k < |Filter(rows, Kept)| ==> Filter(rows, Kept)[k].category == category
    ensures forall k :: 0 <= k < |Filter(rows, Kept)| ==> (Filter(rows, Kept)[k].subcategory.None? <==> category == SemClassificacao)
    ensures forall k :: 0 <= k < |Filter(rows, Kept)| ==> Filter(rows, Kept)[k] in rows
  {
    var out := Filter(rows, Kept);
    forall k | 0 <= k < |out|
      ensures out[k].category == category
      ensures out[k].subcategory.None? <==> category == SemClassificacao
      ensures out[k] in rows
    {
      assert out[k] in multiset(rows);
    }
  }

  /** Everything `_prepare_dataframe` does after the melt. */
  function Classify(longs: seq<Long<(Cell, Cell)>>, category: Category): (r: Result<seq<ProcRow>, Failure>)
    ensures r.Success? <==> Convert(DropMissing(longs), category).Success?
    ensures r.Success? ==> forall k :: 0 <= k < |r.value| ==> r.value[k] in Convert(DropMissing(longs), category).value
    ensures r.Success? ==> |r.value| <= |longs|
    ensures r.Success? ==> forall k :: 0 <= k < |r.value| ==> r.value[k].category == category
    ensures r.Success? ==> forall k :: 0 <= k < |r.value| ==> (r.value[k].subcategory.None? <==> category == SemClassificacao)
  {
    var kept := DropMissing(longs);
    match Convert(kept, category)
    case Failure(e) => Failure(e)
    case Success(rows) =>
      KeptRows(rows, category);
      assert |rows| == |kept| <= |longs|;
      Success(Filter(rows, Kept))
  }

  /** The identifier columns of the processing melt. */
  const IdVars: seq<string> := ["cultivar", "control"]

  function Melted(t: Table): (r: Result<seq<Long<(Cell, Cell)>>, Failure>)
    ensures r.Failure? <==> "cultivar" !in t.columns || "control" !in t.columns
    ensures r.Failure? ==> r.error.MissingColumn?
    ensures r.Success? ==> |r.value| == |t.rows| * |YearColumns(t.columns)|
  {
    assert forall c :: c in IdVars <==> c == "cultivar" || c == "control";
    Melt(t, IdVars, Ids)
  }

  /** `_prepare_dataframe(df, category)`: melt over cultivar and control,
      drop missing quantities, cast the year, normalise the quantity, add
      category and subcategory, and drop the unclassified rows. Each column
      operation raises on its first bad element, ending the whole ingest. */
  function Prepare(t: Table, category: Category): (r: Result<seq<ProcRow>, Failure>)
    ensures "cultivar" !in t.columns || "control" !in t.columns ==> r.Failure? && r.error.MissingColumn?
    ensures r.Success? ==> |r.value| <= |t.rows| * |YearColumns(t.columns)|
    ensures r.Success? ==> forall k :: 0 <= k < |r.value| ==> r.value[k].category == category
    ensures r.Success? ==> forall k :: 0 <= k < |r.value| ==> (r.value[k].subcategory.None? <==> category == SemClassificacao)
  {
    match Melted(t)
    case Failure(e) => Failure(e)
    case Success(longs) => Classify(longs, category)
  }

  /** The melted row of source row `i` under the `j`-th year column. */
  function LongAt(t: Table, i: nat, j: nat): Long<(Cell, Cell)>
    requires i < |t.rows| && j < |YearColumns(t.columns)|
  {
    Long(Ids(t.rows[i]), YearColumns(t.columns)[j], CellAt(t.rows[i], YearColumns(t.columns)[j]))
  }

  /** Prepared row `p` comes from source row `i` and year column `j`: the
      quantity cell there is present, and `p` is its conversion. */
  ghost predicate DerivedFrom(t: Table, category: Category, p: ProcRow, i: nat, j: nat) {
    i < |t.rows| && j < |YearColumns(t.columns)| && LongAt(t, i, j).value.Some?
    && Converts(LongAt(t, i, j), category) && p == RowOf(LongAt(t, i, j), category)
  }

  /** The year of a derived row is its column name read as a number, its
      quantity the normalised cell and its cultivar the source row's. */
  lemma DerivedFields(t: Table, category: Category, p: ProcRow, i: nat, j: nat)
    requires DerivedFrom(t, category, p, i, j)
    ensures IsDigits(YearColumns(t.columns)[j]) && p.year == DigitsValue(YearColumns(t.columns)[j])
    ensures p.quantity == DomainQuantity(CellAt(t.rows[i], YearColumns(t.columns)[j]).value, Truncating).value
    ensures p.cultivar == CellAt(t.rows[i], "cultivar") && p.category == category
    ensures p.subcategory == ExtractSubcategory(category, CellAt(t.rows[i], "control")).value
  {
    assert YearColumns(t.columns)[j] in YearColumns(t.columns);
  }

  /** Every prepared row is derived from one source row and one year column
      with a present quantity cell. */
  lemma PrepareRowOrigin(t: Table, category: Category, p: ProcRow)
    requires Prepare(t, category).Success? && p in Prepare(t, category).value
    ensures exists i, j :: DerivedFrom(t, category, p, i, j)
  {
    var longs := Melted(t).value;
    var kept := DropMissing(longs);
    var rows := Convert(kept, category).value;
    var k :| 0 <= k < |Prepare(t, category).value| && Prepare(t, category).value[k] == p;
    assert p in rows;
    var m :| 0 <= m < |rows| && rows[m] == p;
    assert kept[m] in longs && kept[m].value.Some?;
    LongOrigin(t, category, kept[m]);
  }

  /** A present melted row that converts is derived from its source cell. */
  lemma LongOrigin(t: Table, category: Category, x: Long<(Cell, Cell)>)
    requires Melted(t).Success? && x in Melted(t).value && x.value.Some? && Converts(x, category)
    ensures exists i, j :: DerivedFrom(t, category, RowOf(x, category), i, j)
  {
    MeltOriginAt(t, IdVars, Ids, x);
    var i, j :| 0 <= i < |t.rows| && 0 <= j < |YearColumns(t.columns)|
                && x == Long(Ids(t.rows[i]), YearColumns(t.columns)[j], CellAt(t.rows[i], YearColumns(t.columns)[j]));
    assert LongAt(t, i, j) == x;
    assert DerivedFrom(t, category, RowOf(x, category), i, j);
  }

  /** Each present quantity cell's melted row survives the `dropna`. */
  lemma LongKept(t: Table, i: nat, j: nat)
    requires Melted(t).Success?
    requires i < |t.rows| && j < |YearColumns(t.columns)| && LongAt(t, i, j).value.Some?
    ensures LongAt(t, i, j) in DropMissing(Melted(t).value)
  {
    var longs := Melted(t).value;
    MeltAt(t, IdVars, Ids, i, j);
    assert longs[j * |t.rows| + i] == LongAt(t, i, j);
  }

  /** Each present quantity cell's melted row is converted in any successful
      preparation. */
  lemma PrepareConverts(t: Table, category: Category, i: nat, j: nat)
    requires Prepare(t, category).Success?
    requires i < |t.rows| && j < |YearColumns(t.columns)| && LongAt(t, i, j).value.Some?
    ensures Converts(LongAt(t, i, j), category)
  {
    LongKept(t, i, j);
    var kept := DropMissing(Melted(t).value);
    var m :| 0 <= m < |kept| && kept[m] == LongAt(t, i, j);
    assert Converts(kept[m], category);
  }

  /** Conversely, a source row's present quantity under a year column yields a
      prepared row unless that row is unclassified in a classified file. */
  lemma PrepareRowKept(t: Table, category: Category, i: nat, j: nat)
    requires Prepare(t, category).Success?
    requires i < |t.rows| && j < |YearColumns(t.columns)| && LongAt(t, i, j).value.Some?
    requires category == SemClassificacao || ExtractSubcategory(category, CellAt(t.rows[i], "control")) != Success(None)
    ensures Converts(LongAt(t, i, j), category)
    ensures RowOf(LongAt(t, i, j), category) in Prepare(t, category).value
  {
    PrepareConverts(t, category, i, j);
    LongKept(t, i, j);
    var kept := DropMissing(Melted(t).value);
    var m :| 0 <= m < |kept| && kept[m] == LongAt(t, i, j);
    var rows := Convert(kept, category).value;
    assert Prepare(t, category).value == Filter(rows, Kept);
    assert rows[m] == RowOf(LongAt(t, i, j), category);
    assert Kept(rows[m]);
  }

  /** A quantity that does not parse, or a NaN control in a classified file,
      anywhere among the present cells, fails the whole preparation. */
  lemma PrepareNeedsEveryCell(t: Table, category: Category, i: nat, j: nat)
    requires Prepare(t, category).Success?
    requires i < |t.rows| && j < |YearColumns(t.columns)|
    requires CellAt(t.rows[i], YearColumns(t.columns)[j]).Some?
    ensures DomainQuantity(CellAt(t.rows[i], YearColumns(t.columns)[j]).value, Truncating).Success?
    ensures category != SemClassificacao ==> CellAt(t.rows[i], "control").Some?
  {
    PrepareConverts(t, category, i, j);
  }

  /** The natural key of the duplicate lookup. */
  type Key = (int, Cell, Category, Option<Subcategory>)

  /** `get_by_year_and_cultivate_and_category` is called with the row's year,
      cultivar, category and subcategory. */
  function RowKey(p: ProcRow): Option<Key> {
    Some((p.year, p.cultivar, p.category, p.subcategory))
  }

  function RecKey(rec: Processing): Key {
    (rec.year, Some(rec.cultivate), rec.category, Some(rec.subcategory))
  }

  /** `ProcessingCreate(...)`: validation needs a string cultivar and a
      subcategory member; "" is not one. */
  function Build(p: ProcRow): (r: Option<Processing>)
    ensures r.Some? <==> p.cultivar.Some? && p.subcategory.Some?
    ensures r.Some? ==> RecKey(r.value) == RowKey(p).value && r.value.quantityKg == p.quantity
  {
    if p.cultivar.Some? && p.subcategory.Some? then
      Some(Processing(p.year, p.cultivar.value, p.quantity, p.category, p.subcategory.value))
    else None
  }

  const Ingestor: Loader<ProcRow, Processing, Key> := Loader(RowKey, RecKey, Build)

  /** The lookup key a record is created with is the key it is found under. */
  lemma IngestorSound()
    ensures Sound(Ingestor)
  {
  }

  /** The fetch: the table parsed from a path with a separator, or `None`
      when the download raises. */
  type Fetch = (string, char) -> Option<Table>

  /** One iteration of the path loop up to the row loop: category lookup,
      fetch, preparation. */
  function Source(fetch: Fetch, path: string): Result<seq<ProcRow>, Failure> {
    if path !in Categories then Failure(MissingCategory(path))
    else match fetch(path, Separator(path))
      case None => Failure(SourceUnavailable(path))
      case Some(t) => Prepare(t, Categories[path])
  }

  function Sources(fetch: Fetch): (r: seq<Result<seq<ProcRow>, Failure>>)
    ensures |r| == |Paths| && forall i :: 0 <= i < |Paths| ==> r[i] == Source(fetch, Paths[i])
  {
    seq(|Paths|, i requires 0 <= i < |Paths| => Source(fetch, Paths[i]))
  }

  /** `ProcessingIngestor.ingest`. */
  function Ingest(fetch: Fetch, store: seq<Processing>): (o: Outcome<Processing>)
    ensures store <= o.state.store
    ensures o.failure.None? <==> forall i :: 0 <= i < |Paths| ==> Source(fetch, Paths[i]).Success?
  {
    RunBatches(Ingestor, Fresh(store), Sources(fetch))
  }

  /** A second ingest over the same files inserts nothing and changes nothing. */
  lemma IngestIdempotent(fetch: Fetch, store: seq<Processing>)
    ensures var first := Ingest(fetch, store);
            var again := Ingest(fetch, first.state.store);
            again.state.store == first.state.store && again.state.inserted == 0 && again.failure == first.failure
  {
    IngestorSound();
    RunBatchesIdempotent(Ingestor, store, Sources(fetch));
  }

  /** The ingest never stores two records with the same natural key. */
  lemma IngestKeepsKeysDistinct(fetch: Fetch, store: seq<Processing>)
    requires DistinctKeys(store, RecKey)
    ensures DistinctKeys(Ingest(fetch, store).state.store, RecKey)
  {
    IngestorSound();
    RunBatchesKeepsKeysDistinct(Ingestor, store, Sources(fetch));
  }

  /** The SEM_CLASSIFICACAO rows survive preparation with an empty
      subcategory and then fail validation: no record the ingest writes has
      that category. */
  lemma IngestNeverStoresSemClassificacao(fetch: Fetch, store: seq<Processing>, k: nat)
    requires |store| <= k < |Ingest(fetch, store).state.store|
    ensures Ingest(fetch, store).state.store[k].category != SemClassificacao
  {
    var batches := Sources(fetch);
    var rec := Ingest(fetch, store).state.store[k];
    RunBatchesBuilt(Ingestor, Fresh(store), batches, k);
    var b, j :| 0 <= b < |batches| && batches[b].Success? && 0 <= j < |batches[b].value|
                && Build(batches[b].value[j]) == Some(rec);
    SourceRowClassified(fetch, Paths[b], j);
  }

  /** A row a source yields with a subcategory is not SEM_CLASSIFICACAO. */
  lemma SourceRowClassified(fetch: Fetch, path: string, j: nat)
    requires Source(fetch, path).Success? && j < |Source(fetch, path).value|
    ensures Source(fetch, path).value[j].subcategory.Some? ==> Source(fetch, path).value[j].category != SemClassificacao
  {
  }

  // The crud functions of the processing table.

  /** `create_processing`: the table gains the record, which is returned. */
  function CreateProcessing(s: seq<Processing>, data: Processing): (r: (seq<Processing>, Processing))
    ensures r.1 == data
    ensures multiset(r.0) == multiset(s) + multiset{data}
    ensures GetByYearAndCultivateAndCategory(r.0, data.year, Some(data.cultivate), data.category, Some(data.subcategory)).Some?
  {
    CreateThenFind(s, data, RecKey);
    (Create(s, data), data)
  }

  /** The ORDER BY of `list_processing`: year descending, then category,
      subcategory and cultivar. The enums sort by member name, as the
      default sqlite database stores them; a native PostgreSQL enum would
      sort by declaration order instead. */
  function ListOrder(rec: Processing): OrderKey {
    OrderKey(rec.year, [CategoryName(rec.category), SubcategoryName(rec.subcategory), rec.cultivate])
  }

  /** `list_processing(limit, offset)`. */
  function ListProcessing(s: seq<Processing>, limit: Option<nat>, offset: Option<nat>): (r: seq<Processing>)
    ensures Sorted(r, ListOrder)
    ensures multiset(r) <= multiset(s)
    ensures Truthy(limit) ==> |r| <= limit.value
    ensures !Truthy(limit) && !Truthy(offset) ==> multiset(r) == multiset(s)
    ensures |r| == PageSize(|s|, limit, offset)
    ensures forall k :: 0 <= k < |r| ==> r[k] == SortBy(s, ListOrder)[Skipped(offset) + k]
  {
    List(s, ListOrder, limit, offset)
  }

  /** `get_by_year_and_cultivate_and_category`: some record with all four
      values, if there is one. */
  function GetByYearAndCultivateAndCategory(s: seq<Processing>, year: int, cultivate: Cell, category: Category, subcategory: Option<Subcategory>): (r: Option<Processing>)
    ensures r.Some? <==> exists i :: 0 <= i < |s| && s[i].year == year && Some(s[i].cultivate) == cultivate
                                     && s[i].category == category && Some(s[i].subcategory) == subcategory
    ensures r.Some? ==> r.value in s && r.value.year == year && Some(r.value.cultivate) == cultivate
                        && r.value.category == category && Some(r.value.subcategory) == subcategory
  {
    FindKey(s, RecKey, (year, cultivate, category, subcategory))
  }

  /** `clear_processing`. */
  function ClearProcessing(s: seq<Processing>): (r: seq<Processing>)
    ensures |r| == 0
  {
    Clear(s)
  }
}
