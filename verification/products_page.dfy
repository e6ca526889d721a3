/** The product listing page (src/components/products/Products.tsx): the
    sort and limit selectors, and the filters it hands to the product
    service, read from the URL's search parameters. */
module ProductsPage {
  import opened Wrappers
  import JsNumber
  import SearchParams
  import Pagination
  import ProductQuery
  import Text

  /** The sort selector's neutral value, never written to the URL. */
  const Relevance := "relevance"

  /** `params.get("sort") || "relevance"`. */
  function CurrentSort(ps: SearchParams.Params): string {
    var p := SearchParams.Get(ps, "sort");
    if Truthy(p) then p.value else Relevance
  }

  /** `Number(params.get("limit") || 20)`. */
  function Limit(ps: SearchParams.Params): JsNumber.Num {
    JsNumber.ParamOr(SearchParams.Get(ps, "limit"), 20)
  }

  /** On a URL without parameters the page sorts by relevance and shows
      page 1 with 20 products. */
  lemma Defaults()
    ensures CurrentSort([]) == Relevance
    ensures Pagination.CurrentPageAsWritten([]) == JsNumber.Finite(1)
    ensures Limit([]) == JsNumber.Finite(20)
  {
  }

  /** `updateFilter(key, value)`: choosing "relevance" removes `sort`;
      any other value is stored under `key`. No other parameter changes. */
  function UpdateFilter(ps: SearchParams.Params, key: string, value: string): (r: SearchParams.Params)
    ensures value == Relevance ==>
      && SearchParams.Get(r, "sort").None?
      && forall k :: k != "sort" ==> SearchParams.Get(r, k) == SearchParams.Get(ps, k)
    ensures value != Relevance ==>
      && SearchParams.Get(r, key) == Some(value)
      && forall k :: k != key ==> SearchParams.Get(r, k) == SearchParams.Get(ps, k)
  {
    if value == Relevance then SearchParams.Delete(ps, "sort")
    else SearchParams.Set(ps, key, value)
  }

  /** Choosing a sort and reading it back gives the choice; the empty choice
      reads back as "relevance". */
  lemma SortSelectionRoundTrip(ps: SearchParams.Params, choice: string)
    ensures CurrentSort(UpdateFilter(ps, "sort", choice)) == if choice == "" then Relevance else choice
  {
  }

  /** `updateFilter` with the key "limit" and a number: the limit read back
      is that number. No handler of the page passes "limit" (the page-size
      field has no change handler), so this states the generic set. */
  lemma LimitSelectionRoundTrip(ps: SearchParams.Params, n: int)
    ensures Limit(UpdateFilter(ps, "limit", JsNumber.Show(JsNumber.Finite(n)))) == JsNumber.Finite(n)
  {
    var s := JsNumber.Show(JsNumber.Finite(n));
    JsNumber.ParseShowInteger(n);
    assert s != Relevance by {
      assert s[0] == '-' || Text.IsDigit(s[0]);
    }
    assert SearchParams.Get(UpdateFilter(ps, "limit", s), "limit") == Some(s);
  }

  /** A truthy parameter as a one-element list, as `p ? [p] : []`. */
  function OneOrNone(p: Option<string>): seq<string> {
    if Truthy(p) then [p.value] else []
  }

  /** `p ? Number(p) : undefined`. */
  function NumberOrNone(p: Option<string>): Option<JsNumber.Num> {
    if Truthy(p) then Some(JsNumber.Parse(p.value)) else None
  }

  /** The filters the page requests, as written: the brand is read from the
      `brand` parameter and the page number may be NaN or a fraction. */
  function FiltersAsWritten(ps: SearchParams.Params): ProductQuery.ProductFilters {
    ProductQuery.ProductFilters(
      page := Some(Pagination.CurrentPageAsWritten(ps)),
      limit := Some(Limit(ps)),
      sort := if CurrentSort(ps) != Relevance then Some(CurrentSort(ps)) else None,
      minPrice := NumberOrNone(SearchParams.Get(ps, "minPrice")),
      maxPrice := NumberOrNone(SearchParams.Get(ps, "maxPrice")),
      categories := OneOrNone(SearchParams.Get(ps, "categories")),
      brands := OneOrNone(SearchParams.Get(ps, "brand")))
  }

  /** The filters with the brand read from `brands`, the parameter the
      sidebar and the brand listing write, and a page that is not an integer
      read as 1. */
  function Filters(ps: SearchParams.Params): ProductQuery.ProductFilters {
    FiltersAsWritten(ps).(
      page := Some(JsNumber.Finite(Pagination.CurrentPage(ps))),
      brands := OneOrNone(SearchParams.Get(ps, "brands")))
  }

  /** As written, a brand link `/products?brands=<id>` requests the unfiltered
      listing: the request carries no `brand[in]` segment. */
  lemma BrandLinkIgnoredAsWritten(id: string)
    ensures ProductQuery.ValuesOf(ProductQuery.QuerySegments(FiltersAsWritten([("brands", id)])), ProductQuery.BrandIn) == []
  {
    ProductQuery.QueryCarriesFilters(FiltersAsWritten([("brands", id)]));
  }

  /** With the brand read from `brands`, the brand and category in the URL
      reach the request, sort is sent exactly when it is not "relevance", and
      the page sent is the page the window is built around. */
  lemma FiltersReachQuery(ps: SearchParams.Params)
    ensures ProductQuery.ValuesOf(ProductQuery.QuerySegments(Filters(ps)), ProductQuery.BrandIn)
         == OneOrNone(SearchParams.Get(ps, "brands"))
    ensures ProductQuery.ValuesOf(ProductQuery.QuerySegments(Filters(ps)), ProductQuery.CategoryIn)
         == OneOrNone(SearchParams.Get(ps, "categories"))
    ensures ProductQuery.ValuesOf(ProductQuery.QuerySegments(Filters(ps)), ProductQuery.Sort)
         == if CurrentSort(ps) == Relevance then [] else [CurrentSort(ps)]
    ensures Filters(ps).page == Some(JsNumber.Finite(Pagination.CurrentPage(ps)))
  {
    ProductQuery.QueryCarriesFilters(Filters(ps));
  }

  /** The two versions request the same thing whenever the URL has no
      `brand` or `brands` parameter and an integer (or absent) page. */
  lemma FiltersAgreeWithoutBrand(ps: SearchParams.Params)
    requires SearchParams.Get(ps, "brand").None? && SearchParams.Get(ps, "brands").None?
    requires Pagination.CurrentPageAsWritten(ps).Finite?
    ensures Filters(ps) == FiltersAsWritten(ps)
  {
  }
}
