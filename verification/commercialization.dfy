/** The crud functions of `app/commercialization/crud.py`, over rows with a
    year, a product and a quantity in litres. The domain record shape is
    taken from the legacy commercialization record. */
module Commercialization {
  import opened Wrappers
  import opened Frame
  import opened Store
  import LegacyCommercialization

  /** A row of the commercialization table. */
  type Commercialization = LegacyCommercialization.Commercialization

  /** The lookup key: year and product. */
  function Key(rec: Commercialization): (int, Cell) {
    (rec.year, Some(rec.product))
  }

  /** `create_commercialization`: the table gains the record, which is
      returned and can then be looked up. */
  function CreateCommercialization(s: seq<Commercialization>, data: Commercialization): (r: (seq<Commercialization>, Commercialization))
    ensures r.1 == data
    ensures multiset(r.0) == multiset(s) + multiset{data}
    ensures GetByYearAndProduct(r.0, data.year, Some(data.product)).Some?
  {
    CreateThenFind(s, data, Key);
    (Create(s, data), data)
  }

  /** `count_commercializations`: as many as the unpaged listing holds. */
  function CountCommercializations(s: seq<Commercialization>): (n: nat)
    ensures n == |ListCommercializations(s, None, None)|
  {
    var r := ListCommercializations(s, None, None);
    assert |r| == |multiset(r)| == |multiset(s)| == |s|;
    |s|
  }

  /** The ORDER BY of the listing: year descending, then product. */
  function ListOrder(rec: Commercialization): OrderKey {
    OrderKey(rec.year, [rec.product])
  }

  /** `list_commercializations(limit, offset)`. */
  function ListCommercializations(s: seq<Commercialization>, limit: Option<nat>, offset: Option<nat>): (r: seq<Commercialization>)
    ensures Sorted(r, ListOrder)
    ensures multiset(r) <= multiset(s)
    ensures Truthy(limit) ==> |r| <= limit.value
    ensures !Truthy(limit) && !Truthy(offset) ==> multiset(r) == multiset(s)
    ensures |r| == PageSize(|s|, limit, offset)
    ensures forall k :: 0 <= k < |r| ==> r[k] == SortBy(s, ListOrder)[Skipped(offset) + k]
  {
    List(s, ListOrder, limit, offset)
  }

  /** `get_by_year_and_product`. */
  function GetByYearAndProduct(s: seq<Commercialization>, year: int, product: Cell): (r: Option<Commercialization>)
    ensures r.Some? <==> exists i :: 0 <= i < |s| && s[i].year == year && Some(s[i].product) == product
    ensures r.Some? ==> r.value in s && r.value.year == year && Some(r.value.product) == product
  {
    FindKey(s, Key, (year, product))
  }

  /** `clear_commercialization`. */
  function ClearCommercialization(s: seq<Commercialization>): (r: seq<Commercialization>)
    ensures |r| == 0
  {
    Clear(s)
  }
}
