# Embrapa viticulture ingestion, modelled in Dafny

The service republishes the public viticulture tables of Embrapa's
Vitibrasil site (production, processing, commercialization, importation,
exportation) through a REST API. Its core is the ingestion pipeline. Each
ingestor downloads one or more wide CSV tables, one column per year. It
melts each table into one long row per (entity, year). It normalises the
quantity cells. It then loads the rows into the database with a
check-then-insert loop: a row whose natural key is already stored is
skipped, and any other row is created. The crud modules then serve the
stored records back: list with `ORDER BY` plus `OFFSET`/`LIMIT`, count,
lookup by key, and clear. The pagination envelope turns a count into
pages.

The repository has two generations of this code, and both are modelled:

- the domain packages `app/<domain>/ingestor.py` and `app/<domain>/crud.py`;
- the older `app/services/embrapa/*` ingestors, with `app/crud/*`.

Layout, one module per file:

| module | file | models |
|---|---|---|
| `Wrappers`, `Text`, `Numbers` | wrappers, text, numbers | `Option`/`Result`, string helpers, and `int()`/`float()` over the decimal grammar the CSVs use |
| `Frame` | frame | a data frame as columns plus rows of optional cells; `melt`, `dropna`, year columns |
| `Normalise` | normalise | the quantity normalisers of every ingestor |
| `Store` | store | a table as the sequence of its records; `INSERT`, `SELECT ... WHERE ... first()`, `COUNT`, `DELETE`, `ORDER BY ... OFFSET ... LIMIT` |
| `Load` | load | the check-then-insert loop, generic in the row, record and key types, with the outcome of a run that an exception aborts |
| `Pagination` | pagination | `PaginatedResponse.create` |
| `Processing`, `Importation`, `Production`, `Exportation`, `Commercialization` | one file each | the domain ingestors and crud modules |
| `LegacyBase`, `LegacyPaths`, `LegacyImportation`, `LegacyProcessing`, `LegacyCommercialization`, `LegacyProduction`, `LegacyExportation` | legacy_* | the older ingestors and crud modules |

Modelling conventions:

- A CSV cell is `Option<string>`, where `None` is pandas' NaN.
- A Python float is `Float = Num(real) | NaN`, with exact reals.
- A download is a parameter `fetch(path, separator)`. It returns `None`
  when the HTTP request or the CSV parse raises.
- An exception outside the per-row handler ends the run and keeps what was
  already committed. Every ingest therefore returns
  `Outcome(state, failure)`.
- The two properties that matter to operators are idempotence (running
  the ingest again writes nothing) and key distinctness (the ingest never
  creates two records with the same lookup key). Both are proved once in
  `Load`, for every loader whose built record carries the key its row was
  looked up by (`Load.Sound`). Each ingestor then discharges `Sound`.

Where the code and its design notes disagree, the model follows the code:

- A failed download aborts the whole run; it is not skipped.
- `int()` of a year column and the quantity casts raise before the row
  handler in the domain processing and importation ingestors, so there
  they abort the run instead of being logged.
- The exportation ingestor reads every file with a tab separator. Its
  separator test compares against `"download/ImpSuco.csv"`, which is not
  an exportation path (`Exportation.SeparatorOfPaths`).

## Model

| member | source | states |
|---|---|---|
| Text.Stem | app/exportation/ingestor.py:85 | `path.split("/")[1].split(".")[0]`: a result has no '/' and no '.', and there is none exactly when the path has no directory part (IndexError) |
| Text.JoinSplit | app/exportation/ingestor.py:85 | splitting on a character and joining back on it gives the original string |
| Text.SplitJoin | app/exportation/ingestor.py:85 | joining pieces that do not contain the separator and splitting again gives the pieces back |
| Text.StemOfPath | app/exportation/ingestor.py:85 | for "dir/name.ext" with no '/' or '.' inside the name, the stored stem is exactly the name |
| Text.FirstPrefix | app/production/ingestor.py:62-66 | the first matching prefix wins; no result exactly when no prefix matches |
| Numbers.ParseShowInt | app/processing/ingestor.py:98 | `int()` reads back every integer it would print |
| Frame.YearColumns | app/services/embrapa/base_ingestor.py:31 | the value columns are exactly the all-digit column names, and never more than there are columns |
| Frame.Melt | app/services/embrapa/base_ingestor.py:30-33 | a missing id column is a KeyError naming that column; otherwise one long row per (source row, year column) |
| Frame.MeltAt | app/services/embrapa/base_ingestor.py:32-33 | column-major layout: source row i under year column j is long row j*rows+i and carries that row's id and that cell |
| Frame.MeltOriginAt | app/services/embrapa/base_ingestor.py:32-33 | every long row comes from some source row and year column, with that row's id and cell |
| Frame.DropMissing | app/processing/ingestor.py:97 | `dropna` keeps every long row whose value cell is present, exactly as many times as the input holds it, and no row whose value is missing |
| Frame.Year | app/processing/ingestor.py:98 | an all-digit year column name casts to its decimal value, and any accepted name is what `int()` accepts |
| Normalise.Cleaned | app/processing/ingestor.py:100-108 | the text handed to `float()` never contains a decimal comma |
| Normalise.DomainQuantity | app/processing/ingestor.py:100-108 | the normaliser succeeds exactly when the cleaned text parses to a finite float |
| Normalise.SentinelIsZero | app/importation/ingestor.py:75-84 | "nd", "+" and "*" in any letter case normalise to 0 under both casts |
| Normalise.CommaDecimalTruncates | app/processing/ingestor.py:100-108 | "n,frac" reads as n.frac and `.astype(int)` truncates it to n |
| Normalise.CommaDecimalRounds | app/importation/ingestor.py:75-84 | "n,frac" reads as n.frac and `.round()` takes it to the nearest integer, ties to even |
| Normalise.CommaDecimalExample | app/importation/ingestor.py:75-84 | "1234,56" is stored as 1234 by processing and 1235 by importation |
| Normalise.PlainInt | app/production/ingestor.py:80-81 | an integer the production cast accepts is the value `float()` gives the same text |
| Normalise.LegacyQuantity | app/services/embrapa/importation_ingestor.py:54-63 | a NaN can only come from a present cell whose text `float()` reads as nan; a missing cell or a raw sentinel is 0.0 |
| Normalise.PlainFloat | app/services/embrapa/commercialization_ingestor.py:44 | a missing cell prints as "nan" and is stored as NaN |
| Normalise.SentinelCaseExample | app/exportation/ingestor.py:59-77 | "ND" is 0 for the domain normaliser but raises in the legacy one, whose sentinel test is case-sensitive |
| Store.Page | app/processing/crud.py:31-34 | `offset` applies only when truthy and skips that many rows; `limit` applies only when truthy and caps the rest; row k of the page is row offset+k of the input |
| Store.List | app/processing/crud.py:19-36 | the ORDER BY order, then the OFFSET/LIMIT window: as many rows as survive a truthy offset and a truthy limit, row k being row offset+k of the sorted table; the whole table when neither is truthy |
| Store.ListPagesTile | app/processing/crud.py:31-34 | the listings at offsets o and o+n with limit n together are the listing at o with limit 2n, when ties are broken by table order |
| Store.PagesTile | app/processing/crud.py:31-34 | two consecutive pages of n rows make up the page of 2n rows at the first offset |
| Store.ListWhere | app/importation/crud.py:59-77 | the matching records in ORDER BY order, then the OFFSET/LIMIT window: row k is row offset+k of the sorted matches; unpaged, exactly the matching records |
| Store.CountIsFilterSize | app/importation/crud.py:29-37 | `count(id) WHERE p` equals the number of records `SELECT ... WHERE p` returns |
| Store.CreateThenFind | app/importation/crud.py:9-17 | after a create, the key lookup finds a record with that key, and finds the created record itself when the key was new |
| Load.Step | app/processing/ingestor.py:58-80 | a row is skipped exactly when its key is stored, inserted exactly when its key is new and it validates, and the store changes only by that insert |
| Load.Run | app/processing/ingestor.py:58-80 | every row is counted once as inserted, skipped or logged; the store only grows, by one record per insert |
| Load.RunBuilt | app/processing/ingestor.py:69-78 | every record a run adds was built from one of its rows |
| Load.RunCovers | app/processing/ingestor.py:58-80 | for a key-faithful loader, after a run every row that validates has its key in the store |
| Load.RerunWritesNothing | app/processing/ingestor.py:58-67 | rows whose keys are all stored write nothing, and are all skipped when every one validates |
| Load.RunIdempotent | app/processing/ingestor.py:58-80 | running the same rows against the store a run produced inserts nothing and changes nothing |
| Load.RunKeepsKeysDistinct | app/processing/ingestor.py:58-80 | a run never stores two records with the same lookup key |
| Load.NeverSkips | app/exportation/ingestor.py:51 | when lookup keys and stored keys can never be equal, no row is ever skipped |
| Load.RerunDuplicates | app/exportation/ingestor.py:51 | with such a loader, a second run inserts as many records as the first, so the store holds each of them twice |
| Load.RunBatches | app/processing/ingestor.py:50-56 | an outcome fails exactly when some source fails, and the store only grows |
| Load.RunBatchesIsRun | app/processing/ingestor.py:50-80 | the per-path loop is one run over the rows of the sources before the first failure, reporting that failure |
| Load.RunBatchesIdempotent | app/processing/ingestor.py:47-84 | rerunning a whole multi-source ingest on its own result writes nothing and fails the same way |
| Load.RunBatchesKeepsKeysDistinct | app/processing/ingestor.py:47-84 | a multi-source ingest never stores two records with the same key |
| Load.RunBatchesNeverSkips | app/exportation/ingestor.py:39-88 | a multi-source ingest whose keys never meet skips nothing and duplicates everything on a rerun |
| Load.RunBatchesBuilt | app/processing/ingestor.py:47-84 | every record a multi-source ingest adds was built from a row of a source that loaded |
| Pagination.FloorDiv | app/core/pagination.py:28 | Python `//` rounds toward minus infinity for either sign of the divisor |
| Pagination.CreatePage | app/core/pagination.py:21-38 | the envelope echoes its inputs, has_next means page is below total_pages, has_prev means page is above 1, and per_page 0 raises |
| Pagination.TotalPagesIsCeiling | app/core/pagination.py:28 | total_pages is the least page count whose pages hold every record; zero exactly when there are none |
| Pagination.EmptyHasNoPages | app/core/pagination.py:28-36 | no records means no pages and no next page |
| Pagination.HasNextIffRecordsRemain | app/core/pagination.py:36 | has_next holds exactly when records remain after the current page |
| Processing.SeparatorOfPaths | app/processing/ingestor.py:53 | the Viniferas file is read with ';' and the other three with tab |
| Processing.CategoriesOfPaths | app/processing/ingestor.py:18-30 | every path has a category; only ProcessaSemclass is SEM_CLASSIFICACAO |
| Processing.ExtractSubcategory | app/processing/ingestor.py:124-129 | a NaN control fails exactly for a category with prefixes; a subcategory is found only for a present control outside SEM_CLASSIFICACAO |
| Processing.ExtractSubcategoryCases | app/processing/ingestor.py:32-45 | "ti_" gives TINTAS, "br_" gives BRANCAS for MESA and BRANCAS_E_ROSADAS otherwise, and anything else gives none |
| Processing.SemClassificacaoHasNoSubcategory | app/processing/ingestor.py:44 | the unclassified category never gets a subcategory, whatever its control |
| Processing.Convert | app/processing/ingestor.py:97-119 | the conversion fails exactly when some kept long row does not convert, and otherwise maps each row in order |
| Processing.KeptRows | app/processing/ingestor.py:113-119 | every row the filter keeps is an input row of the file's category, and lacks a subcategory exactly when the category is SEM_CLASSIFICACAO |
| Processing.Classify | app/processing/ingestor.py:97-119 | the prepared rows are converted present cells of this category, with a subcategory exactly when the category is not SEM_CLASSIFICACAO |
| Processing.Melted | app/processing/ingestor.py:86-95 | the melt fails, with a KeyError, exactly when the cultivar or the control column is missing; otherwise one long row per source row and year |
| Processing.Prepare | app/processing/ingestor.py:86-122 | a missing column aborts; every prepared row has the file's category, and a subcategory exactly when the category is classified |
| Processing.DerivedFields | app/processing/ingestor.py:86-119 | a row derived from source row i and year column j has that year, that row's cultivar, the truncated quantity of that cell and the subcategory of that row's control |
| Processing.PrepareRowOrigin | app/processing/ingestor.py:86-122 | every prepared row is derived from one source row and one year column |
| Processing.LongOrigin | app/processing/ingestor.py:89-95 | every melted long row comes from some source row and year column |
| Processing.LongKept | app/processing/ingestor.py:97 | every present cell survives `dropna` |
| Processing.PrepareConverts | app/processing/ingestor.py:97-108 | a successful preparation converted every present cell |
| Processing.PrepareRowKept | app/processing/ingestor.py:86-122 | every present cell of a row that classifies appears among the prepared rows |
| Processing.PrepareNeedsEveryCell | app/processing/ingestor.py:100-112 | a successful preparation means every present quantity parsed and, for a classified file, every control was present |
| Processing.Build | app/processing/models.py:11-15 | validation accepts a row exactly when its cultivar and subcategory are present, and the record carries the row's key and quantity |
| Processing.IngestorSound | app/processing/ingestor.py:58-78 | the record created from a row is found by the key the guard looked it up with |
| Processing.Sources | app/processing/ingestor.py:50-56 | one source per path, in path order, each with that path's category and separator |
| Processing.Ingest | app/processing/ingestor.py:47-84 | the run fails exactly when some path fails to fetch or prepare, and the table only grows |
| Processing.IngestIdempotent | app/processing/ingestor.py:47-84 | a second ingest on the first's result inserts nothing and leaves the table unchanged |
| Processing.IngestKeepsKeysDistinct | app/processing/ingestor.py:58-80 | ingest never creates two records with the same (year, cultivar, category, subcategory) |
| Processing.IngestNeverStoresSemClassificacao | app/processing/ingestor.py:69-78 | no SEM_CLASSIFICACAO record is ever stored, because its rows carry no subcategory and validation rejects them |
| Processing.SourceRowClassified | app/processing/ingestor.py:110-119 | a prepared row with a subcategory never belongs to SEM_CLASSIFICACAO |
| Processing.CreateProcessing | app/processing/crud.py:8-16 | the table gains exactly the given record, which the key lookup then finds |
| Processing.ListProcessing | app/processing/crud.py:19-36 | ordered by year descending then category, subcategory and cultivar; the page skips a truthy offset and keeps at most a truthy limit, row k being row offset+k of the ordered table; the whole table unpaged |
| Processing.GetByYearAndCultivateAndCategory | app/processing/crud.py:48-61 | a record is found exactly when one with that year, cultivar, category and subcategory exists, and the one found has them |
| Processing.ClearProcessing | app/processing/crud.py:64-69 | the table is left empty |
| Importation.SeparatorOfPaths | app/importation/ingestor.py:30 | ImpSuco is read with ';' and the four other files with tab |
| Importation.Melted | app/importation/ingestor.py:64-70 | a missing País column is a KeyError naming it; otherwise one long row per source row and year |
| Importation.Convert | app/importation/ingestor.py:72-87 | the conversion fails exactly when some kept row does not convert, and otherwise maps each row in order |
| Importation.Prepare | app/importation/ingestor.py:61-90 | a missing País column aborts; every prepared row carries the file's category |
| Importation.DerivedFields | app/importation/ingestor.py:61-90 | a row derived from source row i and year column j has that year, that row's country, the rounded quantity of that cell and the file's category |
| Importation.LongOrigin | app/importation/ingestor.py:64-70 | every melted long row comes from some source row and year column |
| Importation.PrepareRowOrigin | app/importation/ingestor.py:61-90 | every prepared row is derived from one source row and one year column |
| Importation.LongKept | app/importation/ingestor.py:72 | every present cell survives `dropna` |
| Importation.PrepareRowKept | app/importation/ingestor.py:61-90 | every present cell appears among the prepared rows |
| Importation.Build | app/importation/ingestor.py:45-55 | validation accepts a row exactly when its country is present, and the record carries the row's key and quantity |
| Importation.IngestorSound | app/importation/ingestor.py:35-55 | the record created from a row is found by the key the guard looked it up with |
| Importation.Source | app/importation/ingestor.py:29-33 | a path missing from the category mapping is a KeyError; every prepared row carries the mapped category |
| Importation.Sources | app/importation/ingestor.py:27-33 | one source per path, in path order |
| Importation.Ingest | app/importation/ingestor.py:24-59 | the run fails exactly when some path fails, and the table only grows |
| Importation.IngestIdempotent | app/importation/ingestor.py:24-59 | a second ingest on the first's result inserts nothing and leaves the table unchanged |
| Importation.IngestKeepsKeysDistinct | app/importation/ingestor.py:35-55 | ingest never creates two records with the same (year, country, category) |
| Importation.IngestCategories | app/importation/ingestor.py:29 | every record ingest adds carries the mapped category of one of the paths |
| Importation.CreateImportation | app/importation/crud.py:9-17 | the table gains exactly the given record, which the key lookup then finds |
| Importation.CountImportation | app/importation/crud.py:20-26 | the count is the size of the unpaged listing |
| Importation.CountImportationByCategory | app/importation/crud.py:29-37 | the count is the size of the unpaged listing by category, and equals the table size exactly when every record has the category |
| Importation.ListImportation | app/importation/crud.py:40-56 | ordered by year descending then country; the page skips a truthy offset and keeps at most a truthy limit, row k being row offset+k of the ordered table; the whole table unpaged |
| Importation.ListImportationByCategory | app/importation/crud.py:59-77 | the records of the category in listing order, then the page: row k is row offset+k of the ordered matches, at most a truthy limit of them; unpaged, exactly the records of the category |
| Importation.GetByYearAndCountryAndCategory | app/importation/crud.py:80-91 | a record is found exactly when one with that year, country and category exists, and the one found has them |
| Importation.ClearImportation | app/importation/crud.py:94-99 | the table is left empty |
| Production.ControlCheck | app/production/ingestor.py:62-66 | a NaN control makes the prefix test raise; otherwise the category is that of the first matching prefix |
| Production.ClassifiedCases | app/production/ingestor.py:18-23 | vm_, vv_, su_ and de_ select their four categories, and no other control has a category |
| Production.ClassifiedRows | app/production/ingestor.py:66-69 | the filter keeps exactly the rows whose control has a category |
| Production.Melted | app/production/ingestor.py:71-77 | a missing produto column is a KeyError; otherwise one long row per classified row and year |
| Production.Convert | app/production/ingestor.py:79-81 | the conversion fails exactly when some kept row does not convert, and otherwise maps each row in order |
| Production.MeltedCategories | app/production/ingestor.py:68-77 | every melted row has a category |
| Production.Prepare | app/production/ingestor.py:54-84 | a missing required column or a NaN control aborts; every prepared row has a category |
| Production.LongOrigin | app/production/ingestor.py:71-77 | every melted long row comes from a classified source row and a year column |
| Production.PrepareRowOrigin | app/production/ingestor.py:54-84 | every prepared row is derived from a classified source row and a year column |
| Production.MeltedIndex | app/production/ingestor.py:71-77 | each classified row's cell under each year is one of the melted rows |
| Production.LongKept | app/production/ingestor.py:79 | every present cell of a classified row survives `dropna` |
| Production.PrepareRowKept | app/production/ingestor.py:54-84 | every present cell of a classified row appears among the prepared rows |
| Production.UnclassifiedRowDropped | app/production/ingestor.py:66-69 | nothing is derived from a row whose control has no category |
| Production.Build | app/production/ingestor.py:38-50 | validation accepts a row exactly when its product and category are present, and the record carries the row's key and quantity |
| Production.IngestorSound | app/production/ingestor.py:33-50 | the record created from a row is found by the key the guard looked it up with |
| Production.Ingest | app/production/ingestor.py:27-52 | the run fails exactly when fetching or preparing fails, and then writes nothing |
| Production.IngestIdempotent | app/production/ingestor.py:27-52 | a second ingest on the first's result inserts nothing and leaves the table unchanged |
| Production.IngestKeepsKeysDistinct | app/production/ingestor.py:33-50 | ingest never creates two records with the same (year, product, category) |
| Production.IngestStoresClassifiedRows | app/production/ingestor.py:27-84 | every record ingest adds is built from a present cell of a classified source row |
| Production.CreateProduction | app/production/crud.py:9-17 | the table gains exactly the given record, which the key lookup then finds |
| Production.ListProductions | app/production/crud.py:20-34 | ordered by year descending then product; the page skips a truthy offset and keeps at most a truthy limit, row k being row offset+k of the ordered table; the whole table unpaged |
| Production.ListProductionsByCategory | app/production/crud.py:37-55 | the records of the category in listing order, then the page: row k is row offset+k of the ordered matches, at most a truthy limit of them; unpaged, exactly the records of the category |
| Production.GetBy | app/production/crud.py:58-67 | a record is found exactly when one with that year, product and category exists, and the one found has them |
| Production.ClearProduction | app/production/crud.py:70-76 | the table is left empty |
| Production.CountProductions | app/production/crud.py:79-85 | the count is the size of the unpaged listing |
| Production.CountProductionsByCategory | app/production/crud.py:88-94 | the count is the size of the unpaged listing by category, and equals the table size exactly when every record has the category |
| Exportation.SeparatorOfPaths | app/exportation/ingestor.py:40 | every export file is read with tab, since no export path equals the importation path the test names |
| Exportation.PathsHaveDirectory | app/exportation/ingestor.py:10-15 | every export path has a directory part, so a full path never equals a stored stem |
| Exportation.StemOfExportPath | app/exportation/ingestor.py:85 | "download/X.csv" is stored as "X" |
| Exportation.ReshapeAsWritten | app/exportation/ingestor.py:17-33 | a missing pais or valor column is a KeyError; otherwise one long row per source row and year |
| Exportation.ReshapeAsWrittenAt | app/exportation/ingestor.py:30 | as written, long row k takes the valor of source row k, which is NaN once k passes the last source row |
| Exportation.ValorMisaligned | app/exportation/ingestor.py:30 | with one row and two years, the second year's long row gets a NaN valor as written but the row's own valor when corrected |
| Exportation.Reshape | app/exportation/ingestor.py:17-33 | the corrected reshape fails exactly as the original does |
| Exportation.ReshapeAt | app/exportation/ingestor.py:17-33 | corrected: each long row carries its own source row's country, cell and valor |
| Exportation.Build | app/exportation/ingestor.py:46-88 | a row is built exactly when its year casts, its country is present and both normalisers succeed; the record stores the stem, no category, and both normalised numbers |
| Exportation.IngestorSound | app/exportation/ingestor.py:51-85 | corrected: the record created from a row is found by the key the guard looked it up with |
| Exportation.AsWrittenKeysNeverMeet | app/exportation/ingestor.py:51-85 | as written, the guard's key (full path) can never equal a stored record's key (stem) |
| Exportation.SourceWith | app/exportation/ingestor.py:42-43 | every reshaped row carries its file's path and that path's stem |
| Exportation.SourcesArePathRows | app/exportation/ingestor.py:39-43 | every row of every export source carries a full path with a directory |
| Exportation.IngestAsWritten | app/exportation/ingestor.py:35-93 | the run fails exactly when some file fails to fetch or reshape, and the table only grows |
| Exportation.RerunDuplicatesRecords | app/exportation/ingestor.py:51-85 | as written, ingest never skips, and a second run inserts every record again |
| Exportation.Ingest | app/exportation/ingestor.py:35-93 | corrected guard: the run fails exactly when some file fails, and the table only grows |
| Exportation.IngestIdempotent | app/exportation/ingestor.py:35-93 | corrected guard: a second ingest inserts nothing and leaves the table unchanged |
| Exportation.IngestKeepsKeysDistinct | app/exportation/ingestor.py:51-88 | corrected guard: ingest never creates two records with the same (year, country, stem) |
| Exportation.IngestAddsNoCategory | app/exportation/ingestor.py:80-86 | ingest never sets a category |
| Exportation.IngestInvisibleByCategory | app/exportation/crud.py:29-37 | over the added category column, the per-category count is unchanged by ingest |
| Exportation.UncategorisedInvisible | app/exportation/crud.py:29-37 | over the added category column, appending records without a category leaves every per-category count unchanged |
| Exportation.FullPathFindsNothing | app/exportation/ingestor.py:51 | on a table of stem-keyed records, the lookup by a full export path finds nothing |
| Exportation.CreateExportation | app/exportation/crud.py:9-17 | the table gains exactly the given record, which the path lookup then finds |
| Exportation.CountExportation | app/exportation/crud.py:20-26 | the count is the size of the unpaged listing |
| Exportation.ListExportation | app/exportation/crud.py:40-56 | ordered by year descending then country; the page skips a truthy offset and keeps at most a truthy limit, row k being row offset+k of the ordered table; the whole table unpaged |
| Exportation.GetByYearAndCountryAndPath | app/exportation/ingestor.py:51 | a record is found exactly when one with that year, country and path exists, and the one found has them |
| Exportation.ClearExportation | app/exportation/crud.py:94-99 | the table is left empty |
| Exportation.CountExportationByCategory | app/exportation/crud.py:29-37 | over the added category column, the count is the size of the unpaged listing by category, and equals the table size exactly when every record has the category |
| Exportation.ListExportationByCategory | app/exportation/crud.py:59-77 | over the added category column, the records of the category in listing order, then the page: row k is row offset+k of the ordered matches, at most a truthy limit of them; unpaged, exactly the records of the category |
| Exportation.GetByYearAndCountryAndCategory | app/exportation/crud.py:80-91 | over the added category column, a record is found exactly when one with that year, country and category exists, and the one found has them |
| Commercialization.CreateCommercialization | app/commercialization/crud.py:10-20 | the table gains exactly the given record, which the key lookup then finds |
| Commercialization.CountCommercializations | app/commercialization/crud.py:23-29 | the count is the size of the unpaged listing |
| Commercialization.ListCommercializations | app/commercialization/crud.py:32-48 | ordered by year descending then product; the page skips a truthy offset and keeps at most a truthy limit, row k being row offset+k of the ordered table; the whole table unpaged |
| Commercialization.GetByYearAndProduct | app/commercialization/crud.py:51-60 | a record is found exactly when one with that year and product exists, and the one found has them |
| Commercialization.ClearCommercialization | app/commercialization/crud.py:63-68 | the table is left empty |
| LegacyBase.FetchUrl | app/services/embrapa/base_ingestor.py:19 | the URL is the base URL, a '/', then the CSV path |
| LegacyBase.FetchUrlInjective | app/services/embrapa/base_ingestor.py:19 | two CSV paths give the same URL exactly when they are equal |
| LegacyBase.FetchCsv | app/services/embrapa/base_ingestor.py:15-24 | the download always asks for that URL with ';' as separator |
| LegacyBase.Reshape | app/services/embrapa/base_ingestor.py:26-35 | a missing id column is a KeyError naming it; otherwise one long row per source row and digit column |
| LegacyBase.ReshapeAt | app/services/embrapa/base_ingestor.py:30-33 | source row i under year column j is long row j*rows+i, with that row's id and that cell |
| LegacyBase.ReshapeOrigin | app/services/embrapa/base_ingestor.py:30-33 | every long row comes from some source row and year column |
| LegacyBase.ReshapeIds | app/services/embrapa/base_ingestor.py:30-33 | every long row's id is a cell of the id column |
| LegacyBase.RowYear | app/services/embrapa/commercialization_ingestor.py:33 | a digit column name casts to its decimal value, and any accepted name is what `int()` accepts |
| LegacyPaths.Build | app/services/embrapa/importation_ingestor.py:45-73 | a row is built exactly when its year casts, its id is present and the quantity normalises; the record stores the stem |
| LegacyPaths.IngestorSound | app/services/embrapa/importation_ingestor.py:49-73 | corrected guard: the record created from a row is found by the key the guard looked it up with |
| LegacyPaths.AsWrittenKeysNeverMeet | app/services/embrapa/importation_ingestor.py:49-70 | as written, the guard's key (full path) never equals a stored record's key (stem) |
| LegacyPaths.Source | app/services/embrapa/importation_ingestor.py:38-43 | a failed download is a failure naming the path; success means download, id column and stem all succeed, and each row is a reshaped row tagged with path and stem |
| LegacyPaths.SourcesInDirectory | app/services/embrapa/importation_ingestor.py:10-16 | when every path has a directory, every source row carries a path with a directory |
| LegacyPaths.IngestPathKeyed | app/services/embrapa/importation_ingestor.py:33-78 | as written (with a working fetch), the run fails exactly when some source fails, and the table only grows |
| LegacyPaths.PathKeyedRerunDuplicates | app/services/embrapa/importation_ingestor.py:49-73 | as written, ingest never skips, and a second run inserts every record again |
| LegacyPaths.Ingest | app/services/embrapa/importation_ingestor.py:33-78 | corrected guard: the run fails exactly when some source fails, and the table only grows |
| LegacyPaths.IngestIdempotent | app/services/embrapa/importation_ingestor.py:33-78 | corrected guard: a second ingest inserts nothing and leaves the table unchanged |
| LegacyPaths.IngestKeepsKeysDistinct | app/services/embrapa/importation_ingestor.py:49-73 | corrected guard: ingest never creates two records with the same (year, name, stem) |
| LegacyImportation.SeparatorOfPaths | app/services/embrapa/importation_ingestor.py:38 | ImpSuco is read with ';' and the four other files with tab |
| LegacyImportation.PathsHaveDirectory | app/services/embrapa/importation_ingestor.py:10-16 | every importation path has a directory part |
| LegacyImportation.ReshapeImportation | app/services/embrapa/importation_ingestor.py:18-31 | a missing País column is a KeyError; otherwise one long row per source row and year, each with a country of that column |
| LegacyImportation.IngestAsWritten | app/services/embrapa/importation_ingestor.py:40 | the call passes two arguments to a one-argument `fetch_csv`, so the run raises TypeError before writing anything |
| LegacyImportation.FetchArityAborts | app/services/embrapa/importation_ingestor.py:40 | the run as written always fails with nothing written, while the same run with a working fetch succeeds whenever every source loads |
| LegacyImportation.IngestFetched | app/services/embrapa/importation_ingestor.py:33-78 | with a working fetch but the path-keyed guard, the run fails exactly when some source fails |
| LegacyImportation.RerunDuplicatesRecords | app/services/embrapa/importation_ingestor.py:49-70 | with the path-keyed guard, nothing is skipped and a rerun inserts every record again |
| LegacyImportation.IngestImportation | app/services/embrapa/importation_ingestor.py:33-78 | corrected: the run fails exactly when some source fails, and the table only grows |
| LegacyImportation.IngestImportationIdempotent | app/services/embrapa/importation_ingestor.py:33-78 | corrected: a second ingest inserts nothing and leaves the table unchanged |
| LegacyImportation.IngestImportationKeepsKeysDistinct | app/services/embrapa/importation_ingestor.py:49-73 | corrected: ingest never creates two records with the same (year, country, stem) |
| LegacyImportation.CreateImportation | app/crud/importation.py:7-15 | the table gains exactly the given record, which the path lookup then finds |
| LegacyImportation.ListImportation | app/crud/importation.py:18-24 | every record, each as often as stored |
| LegacyImportation.ListImportationByPath | app/crud/importation.py:27-30 | exactly the records stored under that path, each as many times as the table holds it; as many as the path count |
| LegacyImportation.GetByYearAndCountryAndPath | app/crud/importation.py:33-41 | a record is found exactly when one with that year, country and path exists, and the one found has them |
| LegacyImportation.ClearImportation | app/crud/importation.py:44-49 | the table is left empty |
| LegacyProcessing.SeparatorOfPaths | app/services/embrapa/processing_ingestor.py:29 | ProcessaViniferas is read with ';' and the three others with tab |
| LegacyProcessing.PathsHaveDirectory | app/services/embrapa/processing_ingestor.py:10 | every processing path has a directory part |
| LegacyProcessing.ReshapeProcessing | app/services/embrapa/processing_ingestor.py:12-22 | a missing cultivar column is a KeyError; otherwise one long row per source row and year, each with a cultivar of that column |
| LegacyProcessing.IngestAsWritten | app/services/embrapa/processing_ingestor.py:31 | the call passes two arguments to a one-argument `fetch_csv`, so the run raises TypeError before writing anything |
| LegacyProcessing.FetchArityAborts | app/services/embrapa/processing_ingestor.py:31 | the run as written always fails with nothing written, while the same run with a working fetch succeeds whenever every source loads |
| LegacyProcessing.IngestFetched | app/services/embrapa/processing_ingestor.py:24-67 | with a working fetch but the path-keyed guard, the run fails exactly when some source fails |
| LegacyProcessing.RerunDuplicatesRecords | app/services/embrapa/processing_ingestor.py:39-59 | with the path-keyed guard, nothing is skipped and a rerun inserts every record again |
| LegacyProcessing.IngestProcessing | app/services/embrapa/processing_ingestor.py:24-67 | corrected: the run fails exactly when some source fails, and the table only grows |
| LegacyProcessing.IngestProcessingIdempotent | app/services/embrapa/processing_ingestor.py:24-67 | corrected: a second ingest inserts nothing and leaves the table unchanged |
| LegacyProcessing.IngestProcessingKeepsKeysDistinct | app/services/embrapa/processing_ingestor.py:39-62 | corrected: ingest never creates two records with the same (year, cultivar, stem) |
| LegacyProcessing.CreateProcessing | app/crud/processing.py:7-15 | the table gains exactly the given record, which the cultivar lookup then finds |
| LegacyProcessing.ListProcessing | app/crud/processing.py:18-22 | every record, each as often as stored |
| LegacyProcessing.GetByYearAndCultivate | app/crud/processing.py:25-32 | a record is found exactly when one with that year and cultivar exists, and the one found has them |
| LegacyProcessing.GetByYearAndCultivateAndPath | app/services/embrapa/processing_ingestor.py:39-42 | found exactly when a record with that year, cultivar and path exists, and then the lookup without path finds one too |
| LegacyProcessing.ClearProcessing | app/crud/processing.py:35-40 | the table is left empty |
| LegacyCommercialization.ReshapeCommercialization | app/services/embrapa/commercialization_ingestor.py:12-22 | a missing Produto column is a KeyError; otherwise one long row per source row and year, each with a product of that column |
| LegacyCommercialization.Build | app/services/embrapa/commercialization_ingestor.py:33-46 | a row is built exactly when its year casts, its product is present and the quantity text parses; the record stores that float |
| LegacyCommercialization.IngestorSound | app/services/embrapa/commercialization_ingestor.py:33-46 | the record created from a row is found by the key the guard looked it up with |
| LegacyCommercialization.SentinelIsNotZero | app/services/embrapa/commercialization_ingestor.py:44 | "nd" is a logged ValueError, not 0, and a missing cell is stored as NaN |
| LegacyCommercialization.Source | app/services/embrapa/commercialization_ingestor.py:25-26 | a failed download is a failure naming Comercio.csv; otherwise the reshaped table |
| LegacyCommercialization.IngestCommercialization | app/services/embrapa/commercialization_ingestor.py:24-52 | a failed download or reshape writes nothing; otherwise every long row is counted once |
| LegacyCommercialization.IngestCommercializationIdempotent | app/services/embrapa/commercialization_ingestor.py:24-52 | a second ingest on the first's result inserts nothing and leaves the table unchanged |
| LegacyCommercialization.IngestCommercializationKeepsKeysDistinct | app/services/embrapa/commercialization_ingestor.py:31-47 | ingest never creates two records with the same (year, product) |
| LegacyCommercialization.CreateCommercialization | app/crud/commercialization.py:10-20 | the table gains exactly the given record, which the key lookup then finds |
| LegacyCommercialization.ListCommercializations | app/crud/commercialization.py:23-29 | every record, each as often as stored |
| LegacyCommercialization.GetByYearAndProduct | app/crud/commercialization.py:32-41 | a record is found exactly when one with that year and product exists, and the one found has them |
| LegacyCommercialization.ClearCommercialization | app/crud/commercialization.py:44-49 | the table is left empty |
| LegacyProduction.ReshapeProduction | app/services/embrapa/production_ingestor.py:10-11 | the inherited reshape on produto: a missing column is a KeyError; otherwise one long row per source row and year |
| LegacyProduction.Build | app/services/embrapa/production_ingestor.py:18-33 | a row is built exactly when its year casts, its product is present and the quantity text parses; the record's state is "Brasil" |
| LegacyProduction.IngestorSound | app/services/embrapa/production_ingestor.py:18-33 | the record created from a row is found by the key the guard looked it up with |
| LegacyProduction.SentinelIsNotZero | app/services/embrapa/production_ingestor.py:30 | "nd" is a logged ValueError, not 0, and a missing cell is stored as NaN |
| LegacyProduction.Source | app/services/embrapa/production_ingestor.py:10-11 | a failed download is a failure naming Producao.csv; otherwise the reshaped table |
| LegacyProduction.IngestProduction | app/services/embrapa/production_ingestor.py:9-38 | a failed download or reshape writes nothing; otherwise every long row is counted once |
| LegacyProduction.IngestProductionIdempotent | app/services/embrapa/production_ingestor.py:9-38 | a second ingest on the first's result inserts nothing and leaves the table unchanged |
| LegacyProduction.IngestProductionKeepsKeysDistinct | app/services/embrapa/production_ingestor.py:16-33 | ingest never creates two records with the same (year, product) |
| LegacyProduction.IngestStoresBrasil | app/services/embrapa/production_ingestor.py:26-33 | every record ingest adds has state "Brasil" and was built from a long row of the source |
| LegacyProduction.CreateProduction | app/crud/production.py:4-12 | the table gains exactly the given record, which the key lookup then finds |
| LegacyProduction.ListProductions | app/crud/production.py:14-18 | every record, each as often as stored |
| LegacyProduction.GetByYearAndProduct | app/crud/production.py:20-27 | a record is found exactly when one with that year and product exists, and the one found has them |
| LegacyProduction.ClearProduction | app/crud/production.py:29-34 | the table is left empty |
| LegacyExportation.CreateExportation | app/crud/exportation.py:7-15 | the table gains exactly the given record, which the path lookup then finds |
| LegacyExportation.ListExportation | app/crud/exportation.py:18-22 | every record, each as often as stored |
| LegacyExportation.ListExportationByPath | app/crud/exportation.py:25-29 | exactly the records stored under that path, each as many times as the table holds it; as many as the path count |
| LegacyExportation.GetByYearAndCountryAndPath | app/crud/exportation.py:32-43 | a record is found exactly when one with that year, country and path exists, and the one found has them |
| LegacyExportation.ClearExportation | app/crud/exportation.py:46-51 | the table is left empty |

## Left out

- HTTP download, `read_csv` with latin-1 decoding, and the CSV grammar: a download is the `fetch` parameter, which returns a parsed table or nothing.
- `app/core/base_ingestor.py` is not part of this model. The domain ingestors call its `fetch_csv(path, separator)`, which is the `fetch` parameter here.
- `app/importation/constants.py` defines neither `Category` nor `CATEGORY_MAPPING`, yet `app/importation/ingestor.py:7-11`, `app/importation/crud.py:5` and `app/importation/models.py:5` import them, so as written those imports fail. The model takes a category to be text and the path-to-category map to be a parameter of `Importation.Ingest`.
- `app/production/constants.py`, `app/models/importation.py`, `app/models/exportation.py` and `app/commercialization/models.py` are not part of this model. Their enums and record shapes are taken from the crud and ingestor code that uses them; the domain commercialization record takes the shape of the legacy one in `app/models/commercialization.py`.
- The lookup helpers `get_by_year_and_country_and_path` (domain exportation crud) and `get_by_year_and_cultivate_and_path` (legacy processing crud) are called but not defined. They are modelled as the lookups their names describe.
- The domain `list_processing_by_path` is left out: the processing record has no path field, so it cannot run as written.
- LegacyProcessing: the model adds a path column holding the file stem, which `app/services/embrapa/processing_ingestor.py:59` passes as `path` and the duplicate lookup's name assumes. The `ProcessingCreate` of `app/models/processing.py:4-14` has no such field, so as written the stem is dropped at validation.
- Text.IsDigits: accepts the ASCII digits only, while `str.isdigit` also accepts other Unicode digits such as superscripts; year column names outside ASCII are not modelled.
- Text.Lower: lower-cases ASCII letters only, while `str.lower` maps every Unicode letter; the sentinels and "nan" it is compared against are ASCII.
- Numbers.ParseFloat: reads ASCII digits only, while `float()` accepts any Unicode decimal digit.
- Exportation.CountExportationByCategory: the record of `app/exportation/models.py:6-13` has no category column, so `app/exportation/crud.py:34` raises AttributeError as written; the model adds the optional column the query assumes and counts over it.
- Exportation.ListExportationByCategory: as written `app/exportation/crud.py:67` raises AttributeError on the missing column; the model lists over the added column.
- Exportation.GetByYearAndCountryAndCategory: as written `app/exportation/crud.py:89` raises AttributeError on the missing column; the model looks up over the added column.
- Exportation.UncategorisedInvisible: states a fact about the added category column, which the record as written lacks.
- Exportation.IngestInvisibleByCategory: states that the ingest, which never sets the added category column, leaves every count over it unchanged; as written the count query raises instead.
- Store.List: ties between records with equal ORDER BY keys are broken by table order, one order SQL allows but does not promise; the page windows, and Store.ListPagesTile, hold only under that rule, and with the non-unique keys the listings sort on a database may place tied rows differently from one query to the next. Store.ListWhere and the paged crud listings inherit this.
- Numbers.ParseInt: the integers are unbounded, while `.astype(int)` casts to int64, wrapping or raising OverflowError outside its range.
- Numbers.Truncate: the truncation is to an unbounded integer, not to int64.
- Numbers.RoundHalfEven: the rounding is to an unbounded integer, not to int64.
- Normalise.DomainQuantity: its `.astype(int)` result is unbounded, so quantities beyond int64 are not modelled.
- Normalise.PlainInt: its `.astype(int)` result is unbounded, so quantities beyond int64 are not modelled. It also reads the cell as text with `int()`, while pandas gives a numeric quantity column a float64 dtype, which `.astype(int)` truncates toward zero. A fractional or exponent cell such as "12.5", "12.0" or "1e3" is therefore a failure here, not 12, 12 or 1000.
- Production.Convert: inherits that reading of the quantity cell. A file with a fractional or exponent quantity aborts the model's run, while `app/production/ingestor.py:81` truncates the inferred float64 column and stores the integer part.
- Logging, `print` and the inserted/skipped counters' log lines: the counters are kept in `Load.State`, and the messages are dropped.
- Database sessions, transactions, auto-increment ids and pydantic/SQLModel validation internals: a table is the sequence of its records, and validation is each ingestor's `Build`.
- Floating point: floats are exact reals, so rounding of decimal fractions in binary is not modelled. `float()` is modelled over digits with an optional sign, decimal point and fraction, plus "nan"; exponents, "inf" and surrounding whitespace are not.
- Normalise.LegacyQuantity: states where 0.0 and NaN come from, not every value `float()` accepts, because the decimal grammar above is partial.
- Normalise.PlainFloat: states only the missing-cell case, for the same reason.
- The API views, authentication, the CLI, database setup, Alembic migrations and the tests are outside the ingestion core.
- Concurrent ingests against one database are not modelled; each run sees the table its predecessor left.
- Enum columns sort by member name, the text SQLAlchemy stores, as on the default sqlite database of `app/core/config.py:7`; collation beyond code-point order is not modelled. On PostgreSQL, where the migrations create native ENUM types, enums sort by declaration order instead, which is not modelled.
- Processing.ListProcessing: orders category and subcategory by member name, the sqlite order. On PostgreSQL a native ENUM sorts by declaration order (VINIFERA, AMERICANAS, MESA, SEM_CLASSIFICACAO; TINTAS, BRANCAS, BRANCAS_E_ROSADAS), so there a year's VINIFERA rows come before its AMERICANAS rows, and the window this contract names holds only on sqlite.

## Findings

| source | as written | input that shows it | evidently intended | confidence | as-written member | corrected member |
|---|---|---|---|---|---|---|
| app/exportation/ingestor.py:51 | the duplicate guard looks records up by the full path "download/ExpVinho.csv", but line 85 stores the stem "ExpVinho" | run the ingest twice on the same files | the guard looks up the stem it stores, so a rerun skips every row | not executed | Exportation.RerunDuplicatesRecords | Exportation.IngestIdempotent |
| app/exportation/ingestor.py:30 | `melted["valores"] = df["valor"]` aligns on the index, so long row k gets source row k's valor | a file with one country row and two year columns: the second year's long row gets NaN, stored as 0.0 | each long row carries the valor of the row it was melted from | not executed | Exportation.ValorMisaligned | Exportation.ReshapeAt |
| app/services/embrapa/importation_ingestor.py:40 | `self.fetch_csv(path, sep)` calls the base method, which takes no argument besides self | any call of ingest raises TypeError before a row is read | fetch the path with its separator | not executed | LegacyImportation.FetchArityAborts | LegacyImportation.IngestFetched |
| app/services/embrapa/processing_ingestor.py:31 | `self.fetch_csv(path, sep)` calls the base method, which takes no argument besides self | any call of ingest raises TypeError before a row is read | fetch the path with its separator | not executed | LegacyProcessing.FetchArityAborts | LegacyProcessing.IngestFetched |
| app/services/embrapa/importation_ingestor.py:49 | the duplicate guard looks up the full path, but line 70 stores the stem | with the fetch fixed, run the ingest twice | the guard looks up the stem, so a rerun skips every row | not executed | LegacyImportation.RerunDuplicatesRecords | LegacyImportation.IngestImportationIdempotent |
| app/services/embrapa/processing_ingestor.py:39 | the duplicate guard looks up the full path; line 59 passes the stem as `path`, which `ProcessingCreate` drops, so no lookup by path can ever match a stored record (the model keeps the stem in an added path column) | with the fetch fixed, run the ingest twice | a stored path column holding the stem, which the guard looks up, so a rerun skips every row | not executed | LegacyProcessing.RerunDuplicatesRecords | LegacyProcessing.IngestProcessingIdempotent |
