/** The crud functions of `app/crud/exportation.py`, the legacy
    counterparts of the exportation crud, over the same exportation rows. */
module LegacyExportation {
  import opened Wrappers
  import opened Frame
  import opened Store
  import Domain = Exportation

  type Exportation = Domain.Exportation

  /** `create_exportation`: the table gains the record, which is returned and
      can then be looked up by year, country and path. */
  function CreateExportation(s: seq<Exportation>, data: Exportation): (r: (seq<Exportation>, Exportation))
    ensures r.1 == data
    ensures multiset(r.0) == multiset(s) + multiset{data}
    ensures GetByYearAndCountryAndPath(r.0, data.year, Some(data.country), data.path).Some?
  {
    Domain.CreateExportation(s, data)
  }

  /** `list_exportation`: every record, unfiltered and unordered. */
  function ListExportation(s: seq<Exportation>): (r: seq<Exportation>)
    ensures multiset(r) == multiset(s)
  {
    ListAll(s)
  }

  function OfPath(path: string): Exportation -> bool {
    (rec: Exportation) => rec.path == path
  }

  /** `list_exportation_by_path`: exactly the records stored under `path`,
      each as many times as the table holds it, in table order. */
  function ListExportationByPath(s: seq<Exportation>, path: string): (r: seq<Exportation>)
    ensures forall k :: 0 <= k < |r| ==> r[k].path == path && r[k] in s
    ensures forall k :: 0 <= k < |s| ==> multiset(r)[s[k]] == (if s[k].path == path then multiset(s)[s[k]] else 0)
    ensures multiset(r) <= multiset(s)
    ensures |r| == CountWhere(s, OfPath(path))
  {
    var r := Filter(s, OfPath(path));
    CountIsFilterSize(s, OfPath(path));
    assert forall k :: 0 <= k < |r| ==> r[k] in multiset(s);
    r
  }

  /** `get_by_year_and_country_and_path`. */
  function GetByYearAndCountryAndPath(s: seq<Exportation>, year: int, country: Cell, path: string): (r: Option<Exportation>)
    ensures r.Some? <==> exists i :: 0 <= i < |s| && s[i].year == year && Some(s[i].country) == country && s[i].path == path
    ensures r.Some? ==> r.value in s && r.value.year == year && Some(r.value.country) == country && r.value.path == path
  {
    Domain.GetByYearAndCountryAndPath(s, year, country, path)
  }

  /** `clear_exportation`. */
  function ClearExportation(s: seq<Exportation>): (r: seq<Exportation>)
    ensures |r| == 0
  {
    Clear(s)
  }
}
