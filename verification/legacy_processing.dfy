/** The legacy `ProcessingIngestor` of `app/services/embrapa` and the crud
    functions of `app/crud/processing.py`. A stored row holds the year, the
    cultivar and the quantity in kilograms. The record the ingestor validates
    against has no path field, so the stem it passes as `path` is dropped;
    the model adds a path column holding that stem, the column the
    ingestor's duplicate lookup assumes by its name. */
module LegacyProcessing {
  import opened Wrappers
  import opened Text
  import opened Frame
  import opened Store
  import opened Load
  import opened LegacyBase
  import opened LegacyPaths

  /** A row of the legacy processing table; `name` is the cultivar. */
  type Processing = PathRecord

  /** `PATHS`, in the order the ingestor reads them. */
  const Paths: seq<string> := [
    "download/ProcessaViniferas.csv",
    "download/ProcessaAmericanas.csv",
    "download/ProcessaMesa.csv",
    "download/ProcessaSemclass.csv"
  ]

  /** The identifier column of the melt. */
  const Cultivar: string := "cultivar"

  /** The separator: ";" for the vinifera file, tab for every other path. */
  function Separator(path: string): char {
    if path == "download/ProcessaViniferas.csv" then ';' else '\t'
  }

  /** Of the declared paths exactly the first, the vinifera file, is read
      with ";"; the other three with tab. */
  lemma SeparatorOfPaths()
    ensures Separator(Paths[0]) == ';'
    ensures forall i :: 1 <= i < |Paths| ==> Separator(Paths[i]) == '\t'
  {
    forall i | 1 <= i < |Paths|
      ensures Separator(Paths[i]) == '\t'
    {
      assert Paths[i][17] != 'V';
    }
  }

  /** Every declared path lies in a directory. */
  lemma PathsHaveDirectory()
    ensures forall i :: 0 <= i < |Paths| ==> '/' in Paths[i]
  {
    forall i | 0 <= i < |Paths|
      ensures '/' in Paths[i]
    {
      assert Paths[i][8] == '/';
    }
  }

  /** `reshape(df)`: the melt over "cultivar"; one long row per (source row,
      year column), carrying the row's cultivar, or a KeyError when the
      column is missing. */
  function ReshapeProcessing(t: Table): (r: Result<seq<Long<Cell>>, Failure>)
    ensures r.Failure? <==> Cultivar !in t.columns
    ensures r.Success? ==> |r.value| == |t.rows| * |YearColumns(t.columns)|
    ensures r.Success? ==> forall k :: 0 <= k < |r.value| ==> r.value[k].id in ColumnCells(t, Cultivar)
  {
    if Cultivar in t.columns then
      ReshapeIds(t, Cultivar);
      Reshape(t, Cultivar)
    else Reshape(t, Cultivar)
  }

  /** `ingest` as written: its first call `self.fetch_csv(path, separator)`
      passes two arguments to the base `fetch_csv(self)`, a TypeError raised
      outside the per-row handler, so the run stops before any row. */
  function IngestAsWritten(store: seq<Processing>): (o: Outcome<Processing>)
    ensures o.state.store == store && Total(o.state) == 0
    ensures o.failure == Some(BadCall("fetch_csv"))
  {
    Outcome(Fresh(store), Some(BadCall("fetch_csv")))
  }

  /** Whatever the downloads would return, the as-written ingest writes
      nothing and fails, while the loop with a working download runs every
      path that downloads and melts. */
  lemma FetchArityAborts(fetch: Fetch, store: seq<Processing>)
    ensures IngestAsWritten(store).state.store == store && IngestAsWritten(store).failure.Some?
    ensures (forall i :: 0 <= i < |Paths| ==> Source(fetch, Cultivar, Paths[i], Separator(Paths[i])).Success?)
            ==> IngestFetched(fetch, store).failure.None?
  {
  }

  /** The loop with the download as evidently intended (the path's URL with
      the path's separator) and the guard as written, keyed on the full path. */
  function IngestFetched(fetch: Fetch, store: seq<Processing>): (o: Outcome<Processing>)
    ensures store <= o.state.store
    ensures o.failure.None? <==> forall i :: 0 <= i < |Paths| ==> Source(fetch, Cultivar, Paths[i], Separator(Paths[i])).Success?
  {
    IngestPathKeyed(fetch, Cultivar, Paths, Separator, store)
  }

  /** With the full-path guard, no row is ever skipped and a second run
      stores every record of the first run again. */
  lemma RerunDuplicatesRecords(fetch: Fetch, store: seq<Processing>)
    requires forall i :: 0 <= i < |store| ==> StemRecord(store[i])
    ensures IngestFetched(fetch, store).state.skipped == 0
    ensures var first := IngestFetched(fetch, store);
            var again := IngestFetched(fetch, first.state.store);
            again.state.inserted == first.state.inserted
            && |again.state.store| == |store| + 2 * first.state.inserted
  {
    PathsHaveDirectory();
    PathKeyedRerunDuplicates(fetch, Cultivar, Paths, Separator, store);
  }

  /** The ingest as evidently intended: working download, guard keyed on the
      stored stem. */
  function IngestProcessing(fetch: Fetch, store: seq<Processing>): (o: Outcome<Processing>)
    ensures store <= o.state.store
    ensures o.failure.None? <==> forall i :: 0 <= i < |Paths| ==> Source(fetch, Cultivar, Paths[i], Separator(Paths[i])).Success?
  {
    Ingest(fetch, Cultivar, Paths, Separator, store)
  }

  /** The corrected ingest is idempotent. */
  lemma IngestProcessingIdempotent(fetch: Fetch, store: seq<Processing>)
    ensures var first := IngestProcessing(fetch, store);
            var again := IngestProcessing(fetch, first.state.store);
            again.state.store == first.state.store && again.state.inserted == 0 && again.failure == first.failure
  {
    IngestIdempotent(fetch, Cultivar, Paths, Separator, store);
  }

  /** The corrected ingest never stores two rows for one (year, cultivar, stem). */
  lemma IngestProcessingKeepsKeysDistinct(fetch: Fetch, store: seq<Processing>)
    requires DistinctKeys(store, RecKey)
    ensures DistinctKeys(IngestProcessing(fetch, store).state.store, RecKey)
  {
    IngestKeepsKeysDistinct(fetch, Cultivar, Paths, Separator, store);
  }

  // The crud functions of `app/crud/processing.py`.

  /** The key of `get_by_year_and_cultivate`: year and cultivar only. */
  function CultivarKey(rec: Processing): (int, Cell) {
    (rec.year, Some(rec.name))
  }

  /** `create_processing`: the table gains the record, which is returned and
      can then be looked up. */
  function CreateProcessing(s: seq<Processing>, data: Processing): (r: (seq<Processing>, Processing))
    ensures r.1 == data
    ensures multiset(r.0) == multiset(s) + multiset{data}
    ensures GetByYearAndCultivate(r.0, data.year, Some(data.name)).Some?
  {
    CreateThenFind(s, data, CultivarKey);
    (Create(s, data), data)
  }

  /** `list_processing`: every record, unfiltered. */
  function ListProcessing(s: seq<Processing>): (r: seq<Processing>)
    ensures multiset(r) == multiset(s)
  {
    ListAll(s)
  }

  /** `get_by_year_and_cultivate`: some record of that year and cultivar, if
      there is one, whatever its path. */
  function GetByYearAndCultivate(s: seq<Processing>, year: int, cultivate: Cell): (r: Option<Processing>)
    ensures r.Some? <==> exists i :: 0 <= i < |s| && s[i].year == year && Some(s[i].name) == cultivate
    ensures r.Some? ==> r.value in s && r.value.year == year && Some(r.value.name) == cultivate
  {
    FindKey(s, CultivarKey, (year, cultivate))
  }

  /** `get_by_year_and_cultivate_and_path`, which the ingestor imports: a
      record of that year, cultivar and path. */
  function GetByYearAndCultivateAndPath(s: seq<Processing>, year: int, cultivate: Cell, path: string): (r: Option<Processing>)
    ensures r.Some? <==> exists i :: 0 <= i < |s| && s[i].year == year && Some(s[i].name) == cultivate && s[i].path == path
    ensures r.Some? ==> GetByYearAndCultivate(s, year, cultivate).Some?
  {
    GetByYearAndNameAndPath(s, year, cultivate, path)
  }

  /** `clear_processing`. */
  function ClearProcessing(s: seq<Processing>): (r: seq<Processing>)
    ensures |r| == 0
  {
    Clear(s)
  }
}
