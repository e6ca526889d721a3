/** The brand listing (src/app/brands/page.tsx): its page size default, and
    the link from each brand to the product listing filtered by it. Its
    page window, page guard and pagination visibility are those of the
    Pagination module. */
module BrandsPage {
  import opened Wrappers
  import JsNumber
  import SearchParams
  import Pagination
  import ProductsPage
  import ProductQuery

  /** `Number(params.get("limit") || 40)`. */
  function Limit(ps: SearchParams.Params): JsNumber.Num {
    JsNumber.ParamOr(SearchParams.Get(ps, "limit"), 40)
  }

  /** On a URL without parameters the listing shows page 1 with 40 brands,
      and a page size written into the URL reads back unchanged. */
  lemma Defaults(n: int)
    ensures Pagination.CurrentPageAsWritten([]) == JsNumber.Finite(1)
    ensures Limit([]) == JsNumber.Finite(40)
    ensures Limit(SearchParams.Set([], "limit", JsNumber.Show(JsNumber.Finite(n)))) == JsNumber.Finite(n)
  {
    JsNumber.ParseShow(JsNumber.Finite(n));
    assert JsNumber.Show(JsNumber.Finite(n)) != "";
  }

  /** The search parameters of a brand's link `/products?brands=<id>`. */
  function BrandLinkParams(brandId: string): (r: SearchParams.Params)
    ensures SearchParams.Get(r, "brands") == Some(brandId)
    ensures forall k :: k != "brands" ==> SearchParams.Get(r, k).None?
  {
    [("brands", brandId)]
  }

  /** Following a brand's link, the product listing (with the brand read
      from `brands`) requests exactly that brand and nothing else is
      filtered. */
  lemma BrandLinkFiltersByBrand(brandId: string)
    requires brandId != ""
    ensures
      var segs := ProductQuery.QuerySegments(ProductsPage.Filters(BrandLinkParams(brandId)));
      && ProductQuery.ValuesOf(segs, ProductQuery.BrandIn) == [brandId]
      && ProductQuery.ValuesOf(segs, ProductQuery.CategoryIn) == []
  {
    ProductsPage.FiltersReachQuery(BrandLinkParams(brandId));
  }
}
