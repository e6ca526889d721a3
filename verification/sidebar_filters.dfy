/** The product filter sidebar (src/components/sidebar/sidebar.tsx, and its
    duplicate src/components/sidebar/sidebar2.tsx, which shares this model):
    selected categories and brands, the price bounds and the collapsible
    sections, kept in step with the URL's `categories`, `brands`, `minPrice`
    and `maxPrice` parameters. Lists travel in the URL comma-joined. */
module SidebarFilters {
  import opened Wrappers
  import JsNumber
  import SearchParams
  import Text
  import Lists

  const DefaultMin := 0
  const DefaultMax := 5000

  /** The local-storage key of the open/closed sections. */
  const SectionsKey := "sidebarOpenSections"

  /** How many brands the compact sidebar lists. */
  const CompactBrandCount := 10

  datatype Section = PriceSection | CategoriesSection | BrandsSection

  datatype Sections = Sections(price: bool, categories: bool, brands: bool)

  datatype Filter = CategoriesFilter | BrandsFilter | PriceFilter

  datatype SidebarState = SidebarState(
    selectedCategories: seq<string>,
    selectedBrands: seq<string>,
    minPrice: JsNumber.Num,
    maxPrice: JsNumber.Num,
    open: Sections)

  const Initial := SidebarState([], [], JsNumber.Finite(DefaultMin), JsNumber.Finite(DefaultMax),
                                Sections(true, true, true))

  /** The state and the URL parameters after a sidebar action. */
  datatype Update = Update(state: SidebarState, params: SearchParams.Params)

  /** `updateURLParams(key, values)`: a non-empty list is stored
      comma-joined, an empty list deletes the key; no other key changes. */
  function UpdateUrlParams(ps: SearchParams.Params, key: string, values: seq<string>): (r: SearchParams.Params)
    ensures |values| > 0 ==> SearchParams.Get(r, key) == Some(Text.Join(values, ','))
    ensures |values| == 0 ==> SearchParams.Get(r, key).None?
    ensures forall k :: k != key ==> SearchParams.Get(r, k) == SearchParams.Get(ps, k)
  {
    if |values| > 0 then SearchParams.Set(ps, key, Text.Join(values, ','))
    else SearchParams.Delete(ps, key)
  }

  /** `p ? p.split(",") : []`. */
  function ParseList(p: Option<string>): seq<string> {
    if Truthy(p) then Text.Split(p.value, ',') else []
  }

  /** A list the URL can carry faithfully: no element contains a comma, and
      it is not the single empty string (which would be stored as a falsy
      empty parameter). */
  predicate Encodable(xs: seq<string>) {
    (forall i :: 0 <= i < |xs| ==> ',' !in xs[i]) && xs != [""]
  }

  /** Writing a list into the URL and parsing it back gives the list. */
  lemma ListRoundTrip(ps: SearchParams.Params, key: string, xs: seq<string>)
    requires Encodable(xs)
    ensures ParseList(SearchParams.Get(UpdateUrlParams(ps, key, xs), key)) == xs
  {
    if |xs| > 0 {
      Text.SplitJoin(xs, ',');
    }
  }

  /** The URL key of a list filter. */
  function KeyOf(f: Filter): string {
    match f
    case CategoriesFilter => "categories"
    case BrandsFilter => "brands"
    case PriceFilter => "price"
  }

  function Selected(s: SidebarState, f: Filter): seq<string> {
    match f
    case CategoriesFilter => s.selectedCategories
    case BrandsFilter => s.selectedBrands
    case PriceFilter => []
  }

  /** A category or brand checkbox: the id is removed (every occurrence)
      when selected and appended otherwise; the new list goes to the URL. */
  function CheckboxToggle(s: SidebarState, ps: SearchParams.Params, f: Filter, id: string): (r: Update)
    requires f != PriceFilter
    ensures Selected(r.state, f) == Lists.Toggle(Selected(s, f), id)
    ensures f == CategoriesFilter ==> r.state == s.(selectedCategories := r.state.selectedCategories)
    ensures f == BrandsFilter ==> r.state == s.(selectedBrands := r.state.selectedBrands)
    ensures r.params == UpdateUrlParams(ps, KeyOf(f), Selected(r.state, f))
  {
    var updated := Lists.Toggle(Selected(s, f), id);
    var state := if f == CategoriesFilter then s.(selectedCategories := updated)
                 else s.(selectedBrands := updated);
    assert Selected(state, f) == updated;
    Update(state, UpdateUrlParams(ps, KeyOf(f), updated))
  }

  /** The effect run whenever the URL changes: the saved sections (already
      parsed) replace the open flags when present; the selected lists are
      parsed from the URL; each price bound is overwritten only when its
      parameter is present and non-empty. */
  function SyncFromParams(s: SidebarState, ps: SearchParams.Params, saved: Option<Sections>): (r: SidebarState)
    ensures r.selectedCategories == ParseList(SearchParams.Get(ps, "categories"))
    ensures r.selectedBrands == ParseList(SearchParams.Get(ps, "brands"))
    ensures !Truthy(SearchParams.Get(ps, "minPrice")) ==> r.minPrice == s.minPrice
    ensures Truthy(SearchParams.Get(ps, "minPrice")) ==> r.minPrice == JsNumber.Parse(SearchParams.Get(ps, "minPrice").value)
    ensures !Truthy(SearchParams.Get(ps, "maxPrice")) ==> r.maxPrice == s.maxPrice
    ensures Truthy(SearchParams.Get(ps, "maxPrice")) ==> r.maxPrice == JsNumber.Parse(SearchParams.Get(ps, "maxPrice").value)
    ensures r.open == saved.GetOr(s.open)
  {
    var minParam := SearchParams.Get(ps, "minPrice");
    var maxParam := SearchParams.Get(ps, "maxPrice");
    SidebarState(
      ParseList(SearchParams.Get(ps, "categories")),
      ParseList(SearchParams.Get(ps, "brands")),
      if Truthy(minParam) then JsNumber.Parse(minParam.value) else s.minPrice,
      if Truthy(maxParam) then JsNumber.Parse(maxParam.value) else s.maxPrice,
      saved.GetOr(s.open))
  }

  /** A checkbox click followed by the URL-change effect leaves the selection
      the click computed, whenever the ids are comma-free and non-empty. */
  lemma CheckboxThenSync(s: SidebarState, ps: SearchParams.Params, f: Filter, id: string)
    requires f != PriceFilter
    requires id != "" && ',' !in id
    requires forall i :: 0 <= i < |Selected(s, f)| ==> Selected(s, f)[i] != "" && ',' !in Selected(s, f)[i]
    ensures
      var u := CheckboxToggle(s, ps, f, id);
      Selected(SyncFromParams(u.state, u.params, None), f) == Selected(u.state, f)
  {
    var u := CheckboxToggle(s, ps, f, id);
    var xs := Selected(u.state, f);
    forall i | 0 <= i < |xs|
      ensures xs[i] != "" && ',' !in xs[i]
    {
      assert xs[i] in xs;
      if xs[i] != id {
        assert xs[i] in Selected(s, f);
      }
    }
    ListRoundTrip(ps, KeyOf(f), xs);
  }

  /** `clearFilter(key)`: categories and brands empty their selection and
      delete their own parameter; price resets the bounds to 0 and 5000 and
      deletes both price parameters. Nothing else changes. */
  function ClearFilter(s: SidebarState, ps: SearchParams.Params, f: Filter): (r: Update)
    ensures f == CategoriesFilter ==>
      && r.state == s.(selectedCategories := [])
      && r.params == SearchParams.Delete(ps, "categories")
    ensures f == BrandsFilter ==>
      && r.state == s.(selectedBrands := [])
      && r.params == SearchParams.Delete(ps, "brands")
    ensures f == PriceFilter ==>
      && r.state == s.(minPrice := JsNumber.Finite(DefaultMin), maxPrice := JsNumber.Finite(DefaultMax))
      && SearchParams.Get(r.params, "minPrice").None? && SearchParams.Get(r.params, "maxPrice").None?
      && forall k :: k != "minPrice" && k != "maxPrice" ==> SearchParams.Get(r.params, k) == SearchParams.Get(ps, k)
  {
    match f
    case CategoriesFilter => Update(s.(selectedCategories := []), SearchParams.Delete(ps, "categories"))
    case BrandsFilter => Update(s.(selectedBrands := []), SearchParams.Delete(ps, "brands"))
    case PriceFilter =>
      Update(s.(minPrice := JsNumber.Finite(DefaultMin), maxPrice := JsNumber.Finite(DefaultMax)),
             SearchParams.Delete(SearchParams.Delete(ps, "minPrice"), "maxPrice"))
  }

  /** The price "clear" button is shown while either bound is in the URL. */
  predicate PriceFilterActive(ps: SearchParams.Params) {
    Truthy(SearchParams.Get(ps, "minPrice")) || Truthy(SearchParams.Get(ps, "maxPrice"))
  }

  /** Clearing a filter and then running the URL-change effect keeps it
      cleared: the selection stays empty, or the bounds stay at 0 and 5000
      and the price "clear" button disappears. */
  lemma ClearThenSync(s: SidebarState, ps: SearchParams.Params, f: Filter)
    ensures
      var u := ClearFilter(s, ps, f);
      var t := SyncFromParams(u.state, u.params, None);
      && Selected(t, f) == []
      && (f == PriceFilter ==>
            t.minPrice == JsNumber.Finite(DefaultMin) && t.maxPrice == JsNumber.Finite(DefaultMax)
            && !PriceFilterActive(u.params))
  {
  }

  /** The "Apply" button: both bounds are written to the URL. */
  function ApplyPrice(ps: SearchParams.Params, min: JsNumber.Num, max: JsNumber.Num): (r: SearchParams.Params)
    ensures forall k :: k != "minPrice" && k != "maxPrice" ==> SearchParams.Get(r, k) == SearchParams.Get(ps, k)
  {
    SearchParams.Set(SearchParams.Set(ps, "minPrice", JsNumber.Show(min)), "maxPrice", JsNumber.Show(max))
  }

  /** Applied bounds are read back exactly by the URL-change effect, and the
      price "clear" button appears. */
  lemma ApplyThenSync(s: SidebarState, ps: SearchParams.Params, min: JsNumber.Num, max: JsNumber.Num)
    ensures
      var r := ApplyPrice(ps, min, max);
      var t := SyncFromParams(s, r, None);
      t.minPrice == min && t.maxPrice == max && PriceFilterActive(r)
  {
    var withMin := SearchParams.Set(ps, "minPrice", JsNumber.Show(min));
    var r := SearchParams.Set(withMin, "maxPrice", JsNumber.Show(max));
    assert r == ApplyPrice(ps, min, max);
    assert SearchParams.Get(r, "minPrice") == SearchParams.Get(withMin, "minPrice") == Some(JsNumber.Show(min));
    assert SearchParams.Get(r, "maxPrice") == Some(JsNumber.Show(max));
    JsNumber.ParseShow(min);
    JsNumber.ParseShow(max);
    ShowNonEmpty(min);
    ShowNonEmpty(max);
  }

  /** Typing into a price field: the minimum reads `Number(value || 0)`,
      the maximum and its slider `Number(value)`. An empty field gives 0
      either way, since `Number("")` is 0, so both read `Number(value)`;
      nothing else changes. */
  function TypePrice(s: SidebarState, isMax: bool, value: string): (r: SidebarState)
    ensures isMax ==> r.maxPrice == JsNumber.Parse(value) && r == s.(maxPrice := r.maxPrice)
    ensures !isMax ==> r.minPrice == JsNumber.Parse(value) && r == s.(minPrice := r.minPrice)
    ensures value == "" ==> (if isMax then r.maxPrice else r.minPrice) == JsNumber.Finite(0)
  {
    JsNumber.ParseBlankAndJunk();
    if isMax then s.(maxPrice := JsNumber.Parse(value))
    else
      JsNumber.ParseShowInteger(0);
      s.(minPrice := JsNumber.Parse(if value == "" then "0" else value))
  }

  /** Typing both bounds, applying them and letting the URL effect run reads
      back the numbers typed, fractions included. */
  lemma TypeApplySync(s: SidebarState, ps: SearchParams.Params, min: string, max: string)
    ensures
      var typed := TypePrice(TypePrice(s, false, min), true, max);
      var t := SyncFromParams(typed, ApplyPrice(ps, typed.minPrice, typed.maxPrice), None);
      t.minPrice == JsNumber.Parse(min) && t.maxPrice == JsNumber.Parse(max)
  {
    var typed := TypePrice(TypePrice(s, false, min), true, max);
    ApplyThenSync(typed, ps, typed.minPrice, typed.maxPrice);
  }

  lemma ShowNonEmpty(x: JsNumber.Num)
    ensures JsNumber.Show(x) != ""
  {
  }

  function IsOpen(o: Sections, k: Section): bool {
    match k
    case PriceSection => o.price
    case CategoriesSection => o.categories
    case BrandsSection => o.brands
  }

  /** `toggleSection(key)`: the new flags, which are also what local storage
      receives. Exactly the chosen flag flips. */
  function ToggleSection(o: Sections, k: Section): (r: Sections)
    ensures IsOpen(r, k) == !IsOpen(o, k)
    ensures forall j :: j != k ==> IsOpen(r, j) == IsOpen(o, j)
  {
    match k
    case PriceSection => o.(price := !o.price)
    case CategoriesSection => o.(categories := !o.categories)
    case BrandsSection => o.(brands := !o.brands)
  }

  /** Toggling a section twice restores the flags. */
  lemma ToggleSectionTwice(o: Sections, k: Section)
    ensures ToggleSection(ToggleSection(o, k), k) == o
  {
  }

  /** The brands listed: all of them, or the first ten in the compact
      sidebar. */
  function ShownBrands<B>(brands: seq<B>, compact: bool): (r: seq<B>)
    ensures compact ==> |r| <= CompactBrandCount && r <= brands
    ensures compact && |brands| >= CompactBrandCount ==> |r| == CompactBrandCount
    ensures !compact ==> r == brands
  {
    if compact then Lists.Take(brands, CompactBrandCount) else brands
  }
}
