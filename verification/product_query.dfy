/** The product-listing request URL (src/lib/services/product.service.ts):
    the query is built by appending `&name=value` segments in a fixed order.
    The fetch itself is not modelled. Values are inserted verbatim, as the
    source does. */
module ProductQuery {
  import opened Wrappers
  import JsNumber
  import Text

  const ApiBase := "https://ecommerce.routemisr.com/api/v1"

  /** The filter argument of `getAllProducts`; an absent field is None. */
  datatype ProductFilters = ProductFilters(
    page: Option<JsNumber.Num>,
    limit: Option<JsNumber.Num>,
    sort: Option<string>,
    minPrice: Option<JsNumber.Num>,
    maxPrice: Option<JsNumber.Num>,
    categories: seq<string>,
    brands: seq<string>)

  /** The query parameters the service writes, in the order it writes them. */
  datatype Field = Limit | Page | Sort | PriceGte | PriceLte | CategoryIn | BrandIn

  /** The parameter's name on the wire. */
  function Name(f: Field): string {
    match f
    case Limit => "limit"
    case Page => "page"
    case Sort => "sort"
    case PriceGte => "price[gte]"
    case PriceLte => "price[lte]"
    case CategoryIn => "category[in]"
    case BrandIn => "brand[in]"
  }

  /** Where each field may appear in the query. */
  function Rank(f: Field): nat {
    match f
    case Limit => 0
    case Page => 1
    case Sort => 2
    case PriceGte => 3
    case PriceLte => 4
    case CategoryIn => 5
    case BrandIn => 6
  }

  type Segment = (Field, string)

  /** `name=value`. */
  function Pair(s: Segment): string {
    Name(s.0) + "=" + s.1
  }

  /** The segments each written as `&name=value`, concatenated. */
  function Amp(segs: seq<Segment>): string {
    if |segs| == 0 then "" else "&" + Pair(segs[0]) + Amp(segs[1..])
  }

  lemma {:induction false} AmpAppend(a: seq<Segment>, b: seq<Segment>)
    ensures Amp(a + b) == Amp(a) + Amp(b)
  {
    if |a| == 0 {
      assert a + b == b;
    } else {
      assert (a + b)[1..] == a[1..] + b;
      AmpAppend(a[1..], b);
    }
  }

  lemma AmpOne(s: Segment)
    ensures Amp([s]) == "&" + Pair(s)
  {
    assert [s][1..] == [];
  }

  /** A query string: the first segment bare, the others after `&`. */
  function Render(segs: seq<Segment>): string {
    if |segs| == 0 then "" else Pair(segs[0]) + Amp(segs[1..])
  }

  /** One segment of field `f` per value, in order. */
  function Tagged(f: Field, values: seq<string>): (r: seq<Segment>)
    ensures |r| == |values|
  {
    if |values| == 0 then [] else [(f, values[0])] + Tagged(f, values[1..])
  }

  predicate HasMin(f: ProductFilters) {
    f.minPrice.Some? && JsNumber.Truthy(f.minPrice.value)
  }

  predicate HasMax(f: ProductFilters) {
    f.maxPrice.Some? && JsNumber.Truthy(f.maxPrice.value)
  }

  /** The filter values as they are written into the query: limit and page
      with their defaults, sort only when truthy, each price bound only when
      truthy (so 0 is dropped), numbers in JavaScript's decimal form. */
  datatype QueryValues = QueryValues(
    limit: string, page: string, sort: Option<string>,
    gte: Option<string>, lte: Option<string>,
    categories: seq<string>, brands: seq<string>)

  function Values(f: ProductFilters): QueryValues
  {
    QueryValues(
      JsNumber.Show(f.limit.GetOr(JsNumber.Finite(20))),
      JsNumber.Show(f.page.GetOr(JsNumber.Finite(1))),
      if Truthy(f.sort) then f.sort else None,
      if HasMin(f) then Some(JsNumber.Show(f.minPrice.value)) else None,
      if HasMax(f) then Some(JsNumber.Show(f.maxPrice.value)) else None,
      f.categories, f.brands)
  }

  /** The segment for `field` when the value is present, else nothing. */
  function When(value: Option<string>, field: Field): seq<Segment> {
    if value.Some? then [(field, value.value)] else []
  }

  /** The query's segments: limit, page, the optional sort and price bounds,
      one `category[in]` per category and one `brand[in]` per brand. */
  function Segments(v: QueryValues): seq<Segment> {
    [(Limit, v.limit)] + AfterLimit(v)
  }

  /** The segments after the leading `limit=`, in the order they are appended. */
  function AfterLimit(v: QueryValues): seq<Segment> {
    [(Page, v.page)] + (When(v.sort, Sort) + AfterSort(v))
  }

  function AfterSort(v: QueryValues): seq<Segment> {
    When(v.gte, PriceGte) + (When(v.lte, PriceLte) + ListSegments(v))
  }

  function ListSegments(v: QueryValues): seq<Segment> {
    Tagged(CategoryIn, v.categories) + Tagged(BrandIn, v.brands)
  }

  function QuerySegments(f: ProductFilters): seq<Segment> {
    Segments(Values(f))
  }

  /** Every segment's rank lies in lo..hi. */
  ghost predicate RanksWithin(segs: seq<Segment>, lo: nat, hi: nat) {
    forall k :: 0 <= k < |segs| ==> lo <= Rank(segs[k].0) <= hi
  }

  /** Ranks never decrease along the segments. */
  ghost predicate RankOrdered(segs: seq<Segment>) {
    forall i, j :: 0 <= i < j < |segs| ==> Rank(segs[i].0) <= Rank(segs[j].0)
  }

  lemma OrderedConcat(a: seq<Segment>, b: seq<Segment>, lo: nat, mid: nat, hi: nat)
    requires RankOrdered(a) && RankOrdered(b)
    requires lo <= mid <= hi
    requires RanksWithin(a, lo, mid) && RanksWithin(b, mid, hi)
    ensures RankOrdered(a + b) && RanksWithin(a + b, lo, hi)
  {
    forall k | 0 <= k < |a + b|
      ensures lo <= Rank((a + b)[k].0) <= hi
    {
      if k < |a| {
        assert (a + b)[k] == a[k];
      } else {
        assert (a + b)[k] == b[k - |a|];
      }
    }
    forall i, j | 0 <= i < j < |a + b|
      ensures Rank((a + b)[i].0) <= Rank((a + b)[j].0)
    {
      if j < |a| {
        assert (a + b)[i] == a[i] && (a + b)[j] == a[j];
      } else if i >= |a| {
        assert (a + b)[i] == b[i - |a|] && (a + b)[j] == b[j - |a|];
      } else {
        assert (a + b)[i] == a[i] && (a + b)[j] == b[j - |a|];
      }
    }
  }

  lemma {:induction false} TaggedOrdered(f: Field, values: seq<string>)
    ensures RankOrdered(Tagged(f, values)) && RanksWithin(Tagged(f, values), Rank(f), Rank(f))
  {
    if |values| > 0 {
      TaggedOrdered(f, values[1..]);
      OrderedConcat([(f, values[0])], Tagged(f, values[1..]), Rank(f), Rank(f), Rank(f));
    }
  }

  /** The segments come in the service's fixed order: limit, page, sort,
      the price bounds, the categories, the brands. */
  lemma QueryOrder(v: QueryValues)
    ensures var r := Segments(v);
      forall i, j :: 0 <= i < j < |r| ==> Rank(r[i].0) <= Rank(r[j].0)
  {
    AfterLimitOrdered(v);
    OrderedConcat([(Limit, v.limit)], AfterLimit(v), 0, 0, 6);
    assert RankOrdered(Segments(v));
  }

  lemma ListSegmentsOrdered(v: QueryValues)
    ensures RankOrdered(ListSegments(v)) && RanksWithin(ListSegments(v), 5, 6)
  {
    TaggedOrdered(CategoryIn, v.categories);
    TaggedOrdered(BrandIn, v.brands);
    OrderedConcat(Tagged(CategoryIn, v.categories), Tagged(BrandIn, v.brands), 5, 5, 6);
  }

  lemma AfterSortOrdered(v: QueryValues)
    ensures RankOrdered(AfterSort(v)) && RanksWithin(AfterSort(v), 3, 6)
  {
    ListSegmentsOrdered(v);
    OrderedConcat(When(v.lte, PriceLte), ListSegments(v), 4, 4, 6);
    OrderedConcat(When(v.gte, PriceGte), When(v.lte, PriceLte) + ListSegments(v), 3, 3, 6);
  }

  lemma AfterLimitOrdered(v: QueryValues)
    ensures RankOrdered(AfterLimit(v)) && RanksWithin(AfterLimit(v), 1, 6)
  {
    AfterSortOrdered(v);
    OrderedConcat(When(v.sort, Sort), AfterSort(v), 2, 2, 6);
    OrderedConcat([(Page, v.page)], When(v.sort, Sort) + AfterSort(v), 1, 1, 6);
  }

  /** The values of the segments of field `f`, in order. */
  function ValuesOf(segs: seq<Segment>, f: Field): seq<string> {
    if |segs| == 0 then []
    else (if segs[0].0 == f then [segs[0].1] else []) + ValuesOf(segs[1..], f)
  }

  lemma {:induction false} ValuesOfAppend(a: seq<Segment>, b: seq<Segment>, f: Field)
    ensures ValuesOf(a + b, f) == ValuesOf(a, f) + ValuesOf(b, f)
  {
    if |a| == 0 {
      assert a + b == b;
    } else {
      assert (a + b)[1..] == a[1..] + b;
      ValuesOfAppend(a[1..], b, f);
    }
  }

  lemma {:induction false} ValuesOfTagged(tag: Field, values: seq<string>, f: Field)
    ensures ValuesOf(Tagged(tag, values), f) == if tag == f then values else []
  {
    if |values| > 0 {
      ValuesOfTagged(tag, values[1..], f);
      assert Tagged(tag, values)[1..] == Tagged(tag, values[1..]);
      assert [values[0]] + values[1..] == values;
    }
  }

  lemma ValuesOfWhen(value: Option<string>, field: Field, f: Field)
    ensures ValuesOf(When(value, field), f) == if value.Some? && field == f then [value.value] else []
  {
    if value.Some? {
      assert When(value, field)[1..] == [];
    }
  }

  /** An optional value as a list of zero or one values. */
  function Listed(o: Option<string>): seq<string> {
    if o.Some? then [o.value] else []
  }

  lemma SegmentsValuesSplit(v: QueryValues, field: Field)
    ensures ValuesOf(Segments(v), field)
         == ValuesOf(When(Some(v.limit), Limit), field) + (ValuesOf(When(Some(v.page), Page), field)
          + (ValuesOf(When(v.sort, Sort), field) + (ValuesOf(When(v.gte, PriceGte), field)
          + (ValuesOf(When(v.lte, PriceLte), field)
          + (ValuesOf(Tagged(CategoryIn, v.categories), field) + ValuesOf(Tagged(BrandIn, v.brands), field))))))
  {
    assert When(Some(v.limit), Limit) == [(Limit, v.limit)];
    assert When(Some(v.page), Page) == [(Page, v.page)];
    ValuesOfAppend([(Limit, v.limit)], AfterLimit(v), field);
    ValuesOfAppend([(Page, v.page)], When(v.sort, Sort) + AfterSort(v), field);
    ValuesOfAppend(When(v.sort, Sort), AfterSort(v), field);
    ValuesOfAppend(When(v.gte, PriceGte), When(v.lte, PriceLte) + ListSegments(v), field);
    ValuesOfAppend(When(v.lte, PriceLte), ListSegments(v), field);
    ValuesOfAppend(Tagged(CategoryIn, v.categories), Tagged(BrandIn, v.brands), field);
  }

  /** Every field's values in the query, read back: limit and page exactly
      once, sort and each price bound once when present and never otherwise,
      and the list fields carry the input lists in order. */
  lemma SegmentsCarryValues(v: QueryValues, field: Field)
    ensures ValuesOf(Segments(v), field) ==
      match field
      case Limit => [v.limit]
      case Page => [v.page]
      case Sort => Listed(v.sort)
      case PriceGte => Listed(v.gte)
      case PriceLte => Listed(v.lte)
      case CategoryIn => v.categories
      case BrandIn => v.brands
  {
    SegmentsValuesSplit(v, field);
    ValuesOfWhen(Some(v.limit), Limit, field);
    ValuesOfWhen(Some(v.page), Page, field);
    ValuesOfWhen(v.sort, Sort, field);
    ValuesOfWhen(v.gte, PriceGte, field);
    ValuesOfWhen(v.lte, PriceLte, field);
    ValuesOfTagged(CategoryIn, v.categories, field);
    ValuesOfTagged(BrandIn, v.brands, field);
  }

  /** Reading the request back: the categories and brands reach the query in
      order, one segment each; sort appears exactly when given; a price bound
      appears exactly when it is truthy, so a bound of 0 is never sent. */
  lemma QueryCarriesFilters(f: ProductFilters)
    ensures ValuesOf(QuerySegments(f), CategoryIn) == f.categories
    ensures ValuesOf(QuerySegments(f), BrandIn) == f.brands
    ensures ValuesOf(QuerySegments(f), Sort) == if Truthy(f.sort) then [f.sort.value] else []
    ensures |ValuesOf(QuerySegments(f), PriceGte)| == if HasMin(f) then 1 else 0
    ensures |ValuesOf(QuerySegments(f), PriceLte)| == if HasMax(f) then 1 else 0
    ensures |ValuesOf(QuerySegments(f), Limit)| == 1 && |ValuesOf(QuerySegments(f), Page)| == 1
  {
    var v := Values(f);
    SegmentsCarryValues(v, CategoryIn);
    SegmentsCarryValues(v, BrandIn);
    SegmentsCarryValues(v, Sort);
    SegmentsCarryValues(v, PriceGte);
    SegmentsCarryValues(v, PriceLte);
    SegmentsCarryValues(v, Limit);
    SegmentsCarryValues(v, Page);
  }

  lemma {:induction false} TaggedAppend(f: Field, a: seq<string>, b: seq<string>)
    ensures Tagged(f, a + b) == Tagged(f, a) + Tagged(f, b)
  {
    if |a| == 0 {
      assert a + b == b;
    } else {
      assert (a + b)[1..] == a[1..] + b;
      TaggedAppend(f, a[1..], b);
    }
  }

  lemma TaggedSnoc(f: Field, values: seq<string>, i: nat)
    requires i < |values|
    ensures Tagged(f, values[..i + 1]) == Tagged(f, values[..i]) + [(f, values[i])]
  {
    assert values[..i + 1] == values[..i] + [values[i]];
    TaggedAppend(f, values[..i], [values[i]]);
  }

  /** One more value appended extends the tagged segments by one. */
  lemma AppendEachStep(url: string, field: Field, values: seq<string>, i: nat)
    requires i < |values|
    ensures url + Amp(Tagged(field, values[..i + 1]))
         == (url + Amp(Tagged(field, values[..i]))) + ("&" + Pair((field, values[i])))
  {
    var done := Tagged(field, values[..i]);
    var tail := "&" + Pair((field, values[i]));
    assert Amp(Tagged(field, values[..i + 1])) == Amp(done) + tail by {
      TaggedSnoc(field, values, i);
      AmpAppend(done, [(field, values[i])]);
      AmpOne((field, values[i]));
    }
    assert url + (Amp(done) + tail) == (url + Amp(done)) + tail;
  }

  /** `url += "&name=" + value` for each value in turn, as the
      source's `forEach` loops do. */
  method AppendEach(url: string, field: Field, values: seq<string>) returns (r: string)
    ensures r == url + Amp(Tagged(field, values))
  {
    r := url;
    var i := 0;
    while i < |values|
      invariant 0 <= i <= |values|
      invariant r == url + Amp(Tagged(field, values[..i]))
    {
      AppendEachStep(url, field, values, i);
      r := r + ("&" + Pair((field, values[i])));
      i := i + 1;
    }
    assert values[..i] == values;
  }

  /** `if (value) url += "&name=" + value`. */
  method AppendWhen(url: string, value: Option<string>, field: Field) returns (r: string)
    ensures r == url + Amp(When(value, field))
  {
    r := url;
    if value.Some? {
      var piece := "&" + Pair((field, value.value));
      AmpOne((field, value.value));
      r := r + piece;
    }
  }

  lemma RenderAfter(prefix: string, segs: seq<Segment>)
    requires |segs| > 0
    ensures prefix + Render(segs) == (prefix + Pair(segs[0])) + Amp(segs[1..])
  {
  }

  /** Appending `x`'s segments, then the rest, is appending all of them. */
  lemma AppendStep(url: string, x: seq<Segment>, rest: seq<Segment>)
    ensures (url + Amp(x)) + Amp(rest) == url + Amp(x + rest)
  {
    AmpAppend(x, rest);
  }

  /** Everything the source appends after `limit=`: the page, each optional
      segment when present, then the category and brand lists. */
  method AppendAfterLimit(head: string, v: QueryValues) returns (url: string)
    ensures url == head + Amp(AfterLimit(v))
  {
    var piece := "&" + Pair((Page, v.page));
    url := head + piece;
    AmpOne((Page, v.page));
    AppendStep(head, [(Page, v.page)], When(v.sort, Sort) + AfterSort(v));
    ghost var rest := When(v.sort, Sort) + AfterSort(v);
    assert url + Amp(rest) == head + Amp(AfterLimit(v));

    AppendStep(url, When(v.sort, Sort), AfterSort(v));
    url := AppendWhen(url, v.sort, Sort);
    rest := AfterSort(v);
    assert url + Amp(rest) == head + Amp(AfterLimit(v));

    AppendStep(url, When(v.gte, PriceGte), When(v.lte, PriceLte) + ListSegments(v));
    url := AppendWhen(url, v.gte, PriceGte);
    rest := When(v.lte, PriceLte) + ListSegments(v);
    assert url + Amp(rest) == head + Amp(AfterLimit(v));

    AppendStep(url, When(v.lte, PriceLte), ListSegments(v));
    url := AppendWhen(url, v.lte, PriceLte);
    rest := ListSegments(v);
    assert url + Amp(rest) == head + Amp(AfterLimit(v));

    AppendStep(url, Tagged(CategoryIn, v.categories), Tagged(BrandIn, v.brands));
    url := AppendEach(url, CategoryIn, v.categories);
    url := AppendEach(url, BrandIn, v.brands);
  }

  /** The URL `getAllProducts` requests: the products endpoint, `limit=`, and
      the remaining segments in the source's order. */
  method ProductsUrl(f: ProductFilters) returns (url: string)
    ensures url == ApiBase + "/products?" + Render(QuerySegments(f))
  {
    var v := Values(f);
    var endpoint := ApiBase + "/products?";
    url := AppendAfterLimit(endpoint + Pair((Limit, v.limit)), v);
    RenderAfter(endpoint, Segments(v));
    assert Segments(v)[1..] == AfterLimit(v);
  }

  const ProductsPath := ApiBase + "/products/"

  /** The URL of `getProductById(id)`: the product path, then the id, which
      can be read back from the URL. */
  function ProductUrl(id: string): (r: string)
    ensures |r| == |ProductsPath| + |id|
    ensures r[..|ProductsPath|] == ProductsPath && r[|ProductsPath|..] == id
  {
    ProductsPath + id
  }

  /** Different products are requested at different URLs. */
  lemma ProductUrlInjective(a: string, b: string)
    ensures ProductUrl(a) == ProductUrl(b) ==> a == b
  {
    if ProductUrl(a) == ProductUrl(b) {
      assert a == ProductUrl(a)[|ProductsPath|..];
    }
  }

  /** A query of two or more segments, written out: the first bare, the
      second after `&`, then the rest. */
  lemma RenderTwo(segs: seq<Segment>)
    requires |segs| >= 2
    ensures Render(segs) == Pair(segs[0]) + ("&" + (Pair(segs[1]) + Amp(segs[2..])))
  {
    assert segs[1..][1..] == segs[2..];
  }

  /** The query always opens with `limit=` and then `&page=`, carrying the
      given values or the defaults 20 and 1. */
  lemma QueryStartsWithLimitAndPage(f: ProductFilters)
    ensures
      var segs := QuerySegments(f);
      && |segs| >= 2
      && segs[0] == (Limit, JsNumber.Show(f.limit.GetOr(JsNumber.Finite(20))))
      && segs[1] == (Page, JsNumber.Show(f.page.GetOr(JsNumber.Finite(1))))
      && Render(segs) == Pair(segs[0]) + ("&" + (Pair(segs[1]) + Amp(segs[2..])))
  {
    RenderTwo(QuerySegments(f));
  }

  /** Without a limit or a page the query opens with `limit=20&page=1`. */
  lemma DefaultQueryPrefix(f: ProductFilters)
    requires f.limit.None? && f.page.None?
    ensures
      var segs := QuerySegments(f);
      Pair(segs[0]) == "limit=20" && Pair(segs[1]) == "page=1"
  {
    QueryStartsWithLimitAndPage(f);
    assert JsNumber.Show(JsNumber.Finite(20)) == "20";
    assert JsNumber.Show(JsNumber.Finite(1)) == "1";
  }
}
