/** The loop the two path-keyed legacy ingestors share
    (`ImportationIngestor` and `ProcessingIngestor` in `app/services/embrapa`):
    for each declared path, download it with a per-path separator, melt it
    over one identifier column, and for each long row look the record up by
    (year, identifier, path) before creating it with the quantity and the
    path's stem. The two differ only in the identifier column, the paths and
    the separator rule, which are parameters here. */
module LegacyPaths {
  import opened Wrappers
  import opened Text
  import opened Numbers
  import opened Normalise
  import opened Frame
  import opened Store
  import opened Load
  import opened LegacyBase

  /** One long row of a source, with the path it was read from and that
      path's stem. */
  datatype PathRow = PathRow(path: string, stem: string, long: Long<Cell>)

  /** A stored row: the year, the identifier (the country or the cultivar),
      the quantity and the stem of the source file ("ImpVinhos" for
      "download/ImpVinhos.csv"). */
  datatype PathRecord = PathRecord(year: int, name: string, quantityKg: Float, path: string)

  /** The lookup key: year, identifier and path. */
  type Key = (int, Cell, string)

  function RecKey(rec: PathRecord): Key {
    (rec.year, Some(rec.name), rec.path)
  }

  /** As written, the guard looks a row up under the full path it was read
      from. */
  function RowKeyAsWritten(l: PathRow): Option<Key> {
    match RowYear(l.long.variable)
    case None => None
    case Some(y) => Some((y, l.long.id, l.path))
  }

  /** As evidently intended, the guard looks a row up under the stem its
      record is stored with. */
  function RowKey(l: PathRow): Option<Key> {
    match RowYear(l.long.variable)
    case None => None
    case Some(y) => Some((y, l.long.id, l.stem))
  }

  /** The rest of the per-row `try` after the guard: the legacy quantity
      normaliser and validation of a string identifier. A failure is a
      ValueError, logged. */
  function Build(l: PathRow): (r: Option<PathRecord>)
    ensures r.Some? <==> RowYear(l.long.variable).Some? && l.long.id.Some? && LegacyQuantity(l.long.value).Success?
    ensures r.Some? ==> r.value.year == RowYear(l.long.variable).value && Some(r.value.name) == l.long.id
    ensures r.Some? ==> r.value.quantityKg == LegacyQuantity(l.long.value).value && r.value.path == l.stem
  {
    match (RowYear(l.long.variable), l.long.id, LegacyQuantity(l.long.value))
    case (Some(y), Some(name), Success(q)) => Some(PathRecord(y, name, q, l.stem))
    case _ => None
  }

  const LoaderAsWritten: Loader<PathRow, PathRecord, Key> := Loader(RowKeyAsWritten, RecKey, Build)

  const Ingestor: Loader<PathRow, PathRecord, Key> := Loader(RowKey, RecKey, Build)

  /** The stem-keyed guard finds a record under the key it was created with. */
  lemma IngestorSound()
    ensures Sound(Ingestor)
  {
  }

  /** The row shape the loop produces: a path with a directory, and a stem
      without one. */
  predicate DirectoryRow(l: PathRow) {
    '/' in l.path && '/' !in l.stem
  }

  /** The record shape the loop writes: a stem without a directory. */
  predicate StemRecord(rec: PathRecord) {
    '/' !in rec.path
  }

  /** A full path never equals a stored stem: the as-written guard can never
      find a record the loop wrote. */
  lemma AsWrittenKeysNeverMeet()
    ensures KeysNeverMeet(LoaderAsWritten, DirectoryRow, StemRecord)
  {
  }

  /** One iteration of the path loop up to the row loop: the download, the
      melt over `idColumn`, and the stem (with no '/' in the path, splitting
      raises IndexError, which the per-row handler does not catch). */
  function Source(fetch: Fetch, idColumn: string, path: string, sep: char): (r: Result<seq<PathRow>, Failure>)
    ensures fetch(FetchUrl(path), sep).None? ==> r == Failure(SourceUnavailable(path))
    ensures r.Success? <==> fetch(FetchUrl(path), sep).Some? && idColumn in fetch(FetchUrl(path), sep).value.columns && Stem(path).Some?
    ensures r.Success? ==> |r.value| == |Reshape(fetch(FetchUrl(path), sep).value, idColumn).value|
    ensures r.Success? ==> forall k :: 0 <= k < |r.value| ==>
              r.value[k] == PathRow(path, Stem(path).value, Reshape(fetch(FetchUrl(path), sep).value, idColumn).value[k])
  {
    match fetch(FetchUrl(path), sep)
    case None => Failure(SourceUnavailable(path))
    case Some(t) =>
      match Reshape(t, idColumn)
      case Failure(e) => Failure(e)
      case Success(longs) =>
        match Stem(path)
        case None => Failure(BadPath(path))
        case Some(stem) => Success(seq(|longs|, k requires 0 <= k < |longs| => PathRow(path, stem, longs[k])))
  }

  /** The sources in declared order. */
  function Sources(fetch: Fetch, idColumn: string, paths: seq<string>, separator: string -> char): (r: seq<Result<seq<PathRow>, Failure>>)
    ensures |r| == |paths| && forall i :: 0 <= i < |paths| ==> r[i] == Source(fetch, idColumn, paths[i], separator(paths[i]))
  {
    seq(|paths|, i requires 0 <= i < |paths| => Source(fetch, idColumn, paths[i], separator(paths[i])))
  }

  /** Every row of a source in a directory has the directory-row shape. */
  lemma SourceRowsInDirectory(fetch: Fetch, idColumn: string, path: string, sep: char)
    requires '/' in path
    ensures Source(fetch, idColumn, path, sep).Success? ==> AllOk(Source(fetch, idColumn, path, sep).value, DirectoryRow)
  {
  }

  /** With every declared path in a directory, every row has that shape. */
  lemma SourcesInDirectory(fetch: Fetch, idColumn: string, paths: seq<string>, separator: string -> char)
    requires forall i :: 0 <= i < |paths| ==> '/' in paths[i]
    ensures BatchesOk(Sources(fetch, idColumn, paths, separator), DirectoryRow)
  {
    var batches := Sources(fetch, idColumn, paths, separator);
    forall b | 0 <= b < |batches| && batches[b].Success?
      ensures AllOk(batches[b].value, DirectoryRow)
    {
      SourceRowsInDirectory(fetch, idColumn, paths[b], separator(paths[b]));
    }
  }

  /** The loop as written, once the download works: full-path guard. */
  function IngestPathKeyed(fetch: Fetch, idColumn: string, paths: seq<string>, separator: string -> char, store: seq<PathRecord>): (o: Outcome<PathRecord>)
    ensures store <= o.state.store
    ensures o.failure.None? <==> forall i :: 0 <= i < |paths| ==> Source(fetch, idColumn, paths[i], separator(paths[i])).Success?
  {
    RunBatches(LoaderAsWritten, Fresh(store), Sources(fetch, idColumn, paths, separator))
  }

  /** As written, the loop never skips a row, and a second run writes every
      record of the first run again. */
  lemma PathKeyedRerunDuplicates(fetch: Fetch, idColumn: string, paths: seq<string>, separator: string -> char, store: seq<PathRecord>)
    requires forall i :: 0 <= i < |paths| ==> '/' in paths[i]
    requires forall i :: 0 <= i < |store| ==> StemRecord(store[i])
    ensures IngestPathKeyed(fetch, idColumn, paths, separator, store).state.skipped == 0
    ensures var first := IngestPathKeyed(fetch, idColumn, paths, separator, store);
            var again := IngestPathKeyed(fetch, idColumn, paths, separator, first.state.store);
            again.state.inserted == first.state.inserted
            && |again.state.store| == |store| + 2 * first.state.inserted
  {
    AsWrittenKeysNeverMeet();
    SourcesInDirectory(fetch, idColumn, paths, separator);
    RunBatchesNeverSkips(LoaderAsWritten, DirectoryRow, StemRecord, store, Sources(fetch, idColumn, paths, separator));
  }

  /** The loop as evidently intended: the guard keyed on the stored stem. */
  function Ingest(fetch: Fetch, idColumn: string, paths: seq<string>, separator: string -> char, store: seq<PathRecord>): (o: Outcome<PathRecord>)
    ensures store <= o.state.store
    ensures o.failure.None? <==> forall i :: 0 <= i < |paths| ==> Source(fetch, idColumn, paths[i], separator(paths[i])).Success?
  {
    RunBatches(Ingestor, Fresh(store), Sources(fetch, idColumn, paths, separator))
  }

  /** The stem-keyed loop is idempotent: a second run writes nothing. */
  lemma IngestIdempotent(fetch: Fetch, idColumn: string, paths: seq<string>, separator: string -> char, store: seq<PathRecord>)
    ensures var first := Ingest(fetch, idColumn, paths, separator, store);
            var again := Ingest(fetch, idColumn, paths, separator, first.state.store);
            again.state.store == first.state.store && again.state.inserted == 0 && again.failure == first.failure
  {
    IngestorSound();
    RunBatchesIdempotent(Ingestor, store, Sources(fetch, idColumn, paths, separator));
  }

  /** The stem-keyed loop never stores two records with the same key. */
  lemma IngestKeepsKeysDistinct(fetch: Fetch, idColumn: string, paths: seq<string>, separator: string -> char, store: seq<PathRecord>)
    requires DistinctKeys(store, RecKey)
    ensures DistinctKeys(Ingest(fetch, idColumn, paths, separator, store).state.store, RecKey)
  {
    IngestorSound();
    RunBatchesKeepsKeysDistinct(Ingestor, store, Sources(fetch, idColumn, paths, separator));
  }

  /** The record lookup by year, identifier and path. */
  function GetByYearAndNameAndPath(s: seq<PathRecord>, year: int, name: Cell, path: string): (r: Option<PathRecord>)
    ensures r.Some? <==> exists i :: 0 <= i < |s| && s[i].year == year && Some(s[i].name) == name && s[i].path == path
    ensures r.Some? ==> r.value in s && r.value.year == year && Some(r.value.name) == name && r.value.path == path
  {
    FindKey(s, RecKey, (year, name, path))
  }
}
