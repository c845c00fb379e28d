/** The legacy `ImportationIngestor` of `app/services/embrapa` and the crud
    functions of `app/crud/importation.py`. A stored row holds the year, the
    country, the quantity in kilograms and the stem of its source file. */
module LegacyImportation {
  import opened Wrappers
  import opened Text
  import opened Frame
  import opened Store
  import opened Load
  import opened LegacyBase
  import opened LegacyPaths

  /** A row of the legacy importation table; `name` is the country. */
  type Importation = PathRecord

  /** `PATHS`, in the order the ingestor reads them. */
  const Paths: seq<string> := [
    "download/ImpVinhos.csv",
    "download/ImpEspumantes.csv",
    "download/ImpFrescas.csv",
    "download/ImpPassas.csv",
    "download/ImpSuco.csv"
  ]

  /** The identifier column of the melt. */
  const Country: string := "País"

  /** The separator: ";" for the juice file, tab for every other path. */
  function Separator(path: string): char {
    if path == "download/ImpSuco.csv" then ';' else '\t'
  }

  /** Of the declared paths exactly the last, the juice file, is read with
      ";"; the other four with tab. */
  lemma SeparatorOfPaths()
    ensures Separator(Paths[4]) == ';'
    ensures forall i :: 0 <= i < 4 ==> Separator(Paths[i]) == '\t'
  {
    forall i | 0 <= i < 4
      ensures Separator(Paths[i]) == '\t'
    {
      assert Paths[i][12] != 'S';
    }
  }

  /** Every declared path lies in a directory. */
  lemma PathsHaveDirectory()
    ensures forall i :: 0 <= i < |Paths| ==> '/' in Paths[i]
  {
    forall i | 0 <= i < |Paths|
      ensures '/' in Paths[i]
    {
      assert Paths[i][8] == '/';
    }
  }

  /** `reshape(df)`: the melt over "País"; one long row per (source row,
      year column), carrying the row's country, or a KeyError when the
      column is missing. */
  function ReshapeImportation(t: Table): (r: Result<seq<Long<Cell>>, Failure>)
    ensures r.Failure? <==> Country !in t.columns
    ensures r.Success? ==> |r.value| == |t.rows| * |YearColumns(t.columns)|
    ensures r.Success? ==> forall k :: 0 <= k < |r.value| ==> r.value[k].id in ColumnCells(t, Country)
  {
    if Country in t.columns then
      ReshapeIds(t, Country);
      Reshape(t, Country)
    else Reshape(t, Country)
  }

  /** `ingest` as written: its first call `self.fetch_csv(path, separator)`
      passes two arguments to the base `fetch_csv(self)`, a TypeError raised
      outside the per-row handler, so the run stops before any row. */
  function IngestAsWritten(store: seq<Importation>): (o: Outcome<Importation>)
    ensures o.state.store == store && Total(o.state) == 0
    ensures o.failure == Some(BadCall("fetch_csv"))
  {
    Outcome(Fresh(store), Some(BadCall("fetch_csv")))
  }

  /** Whatever the downloads would return, the as-written ingest writes
      nothing and fails, while the loop with a working download runs every
      path that downloads and melts. */
  lemma FetchArityAborts(fetch: Fetch, store: seq<Importation>)
    ensures IngestAsWritten(store).state.store == store && IngestAsWritten(store).failure.Some?
    ensures (forall i :: 0 <= i < |Paths| ==> Source(fetch, Country, Paths[i], Separator(Paths[i])).Success?)
            ==> IngestFetched(fetch, store).failure.None?
  {
  }

  /** The loop with the download as evidently intended (the path's URL with
      the path's separator) and the guard as written, keyed on the full path. */
  function IngestFetched(fetch: Fetch, store: seq<Importation>): (o: Outcome<Importation>)
    ensures store <= o.state.store
    ensures o.failure.None? <==> forall i :: 0 <= i < |Paths| ==> Source(fetch, Country, Paths[i], Separator(Paths[i])).Success?
  {
    IngestPathKeyed(fetch, Country, Paths, Separator, store)
  }

  /** With the full-path guard, no row is ever skipped and a second run
      stores every record of the first run again. */
  lemma RerunDuplicatesRecords(fetch: Fetch, store: seq<Importation>)
    requires forall i :: 0 <= i < |store| ==> StemRecord(store[i])
    ensures IngestFetched(fetch, store).state.skipped == 0
    ensures var first := IngestFetched(fetch, store);
            var again := IngestFetched(fetch, first.state.store);
            again.state.inserted == first.state.inserted
            && |again.state.store| == |store| + 2 * first.state.inserted
  {
    PathsHaveDirectory();
    PathKeyedRerunDuplicates(fetch, Country, Paths, Separator, store);
  }

  /** The ingest as evidently intended: working download, guard keyed on the
      stored stem. */
  function IngestImportation(fetch: Fetch, store: seq<Importation>): (o: Outcome<Importation>)
    ensures store <= o.state.store
    ensures o.failure.None? <==> forall i :: 0 <= i < |Paths| ==> Source(fetch, Country, Paths[i], Separator(Paths[i])).Success?
  {
    Ingest(fetch, Country, Paths, Separator, store)
  }

  /** The corrected ingest is idempotent. */
  lemma IngestImportationIdempotent(fetch: Fetch, store: seq<Importation>)
    ensures var first := IngestImportation(fetch, store);
            var again := IngestImportation(fetch, first.state.store);
            again.state.store == first.state.store && again.state.inserted == 0 && again.failure == first.failure
  {
    IngestIdempotent(fetch, Country, Paths, Separator, store);
  }

  /** The corrected ingest never stores two rows for one (year, country, stem). */
  lemma IngestImportationKeepsKeysDistinct(fetch: Fetch, store: seq<Importation>)
    requires DistinctKeys(store, RecKey)
    ensures DistinctKeys(IngestImportation(fetch, store).state.store, RecKey)
  {
    IngestKeepsKeysDistinct(fetch, Country, Paths, Separator, store);
  }

  // The crud functions of `app/crud/importation.py`.

  /** `create_importation`: the table gains the record, which is returned and
      can then be looked up. */
  function CreateImportation(s: seq<Importation>, data: Importation): (r: (seq<Importation>, Importation))
    ensures r.1 == data
    ensures multiset(r.0) == multiset(s) + multiset{data}
    ensures GetByYearAndCountryAndPath(r.0, data.year, Some(data.name), data.path).Some?
  {
    CreateThenFind(s, data, RecKey);
    (Create(s, data), data)
  }

  /** `list_importation`: every record, unfiltered. */
  function ListImportation(s: seq<Importation>): (r: seq<Importation>)
    ensures multiset(r) == multiset(s)
  {
    ListAll(s)
  }

  function OfPath(path: string): Importation -> bool {
    (rec: Importation) => rec.path == path
  }

  /** `list_importation_by_path`: exactly the records stored under `path`,
      each as many times as the table holds it, in table order. */
  function ListImportationByPath(s: seq<Importation>, path: string): (r: seq<Importation>)
    ensures forall k :: 0 <= k < |r| ==> r[k].path == path && r[k] in s
    ensures forall k :: 0 <= k < |s| ==> multiset(r)[s[k]] == (if s[k].path == path then multiset(s)[s[k]] else 0)
    ensures multiset(r) <= multiset(s)
    ensures |r| == CountWhere(s, OfPath(path))
  {
    var r := Filter(s, OfPath(path));
    CountIsFilterSize(s, OfPath(path));
    assert forall k :: 0 <= k < |r| ==> r[k] in multiset(s);
    r
  }

  /** `get_by_year_and_country_and_path`. */
  function GetByYearAndCountryAndPath(s: seq<Importation>, year: int, country: Cell, path: string): (r: Option<Importation>)
    ensures r.Some? <==> exists i :: 0 <= i < |s| && s[i].year == year && Some(s[i].name) == country && s[i].path == path
    ensures r.Some? ==> r.value in s && r.value.year == year && Some(r.value.name) == country && r.value.path == path
  {
    GetByYearAndNameAndPath(s, year, country, path)
  }

  /** `clear_importation`. */
  function ClearImportation(s: seq<Importation>): (r: seq<Importation>)
    ensures |r| == 0
  {
    Clear(s)
  }
}
