/** The pagination of the product and brand listings
    (src/components/products/Products.tsx and src/app/brands/page.tsx, which
    carry identical copies): the current page read from the URL, the
    five-slot page window, and the page-change guard. */
module Pagination {
  import opened Wrappers
  import JsNumber
  import SearchParams
  import Text

  /** The listing's metadata as far as pagination reads it. */
  datatype Metadata = Metadata(numberOfPages: Option<int>)

  /** One slot of the window: a page link, or an ellipsis. */
  datatype PageItem<N> = Page(n: N) | Dots

  /** `Number(params.get("page") || 1)`, as the pages compute it: NaN when the
      parameter is not a number, and a fraction for `?page=5.5`. */
  function CurrentPageAsWritten(ps: SearchParams.Params): JsNumber.Num {
    JsNumber.ParamOr(SearchParams.Get(ps, "page"), 1)
  }

  /** The current page with a parameter that is not an integer (not a
      number, or a fraction) read as page 1. */
  function CurrentPage(ps: SearchParams.Params): (r: int)
    ensures CurrentPageAsWritten(ps).Finite? ==> r == CurrentPageAsWritten(ps).v
    ensures !CurrentPageAsWritten(ps).Finite? ==> r == 1
  {
    match CurrentPageAsWritten(ps)
    case Finite(v) => v
    case _ => 1
  }

  /** `metaData?.numberOfPages` is truthy. */
  predicate HasTotal(meta: Option<Metadata>) {
    meta.Some? && meta.value.numberOfPages.Some? && meta.value.numberOfPages.value != 0
  }

  function TotalOf(meta: Option<Metadata>): int
    requires HasTotal(meta)
  {
    meta.value.numberOfPages.value
  }

  /** Pages lo, lo+1, ..., hi (empty when hi < lo). */
  function Range(lo: int, hi: int): (r: seq<PageItem<int>>)
    ensures |r| == if hi < lo then 0 else hi - lo + 1
    ensures forall i :: 0 <= i < |r| ==> r[i] == Page(lo + i)
    decreases hi - lo
  {
    if hi < lo then [] else [Page(lo)] + Range(lo + 1, hi)
  }

  /** A well-formed compressed page list for `total` pages: every link is a
      page of 1..total, links strictly increase, neighbouring links are
      consecutive pages, and an ellipsis stands between two links and hides
      at least one page. */
  ghost predicate Compressed(r: seq<PageItem<int>>, total: int) {
    && (forall i :: 0 <= i < |r| && r[i].Page? ==> 1 <= r[i].n <= total)
    && (forall i, j :: 0 <= i < j < |r| && r[i].Page? && r[j].Page? ==> r[i].n < r[j].n)
    && (forall i :: 0 <= i < |r| - 1 && r[i].Page? && r[i + 1].Page? ==> r[i + 1].n == r[i].n + 1)
    && (forall i :: 0 <= i < |r| && r[i].Dots? ==>
          0 < i < |r| - 1 && r[i - 1].Page? && r[i + 1].Page? && r[i + 1].n > r[i - 1].n + 1)
  }

  /** `getPages()` with an integer current page. No page count: no slots.
      At most five pages: all of them. Otherwise exactly five slots from page
      1 to the last page, shaped by where the current page lies. */
  function GetPages(meta: Option<Metadata>, current: int): (r: seq<PageItem<int>>)
    ensures !HasTotal(meta) ==> r == []
    ensures HasTotal(meta) && TotalOf(meta) <= 5 ==> r == Range(1, TotalOf(meta))
    ensures HasTotal(meta) && TotalOf(meta) > 5 ==>
      var total := TotalOf(meta);
      && |r| == 5 && r[0] == Page(1) && r[4] == Page(total)
      && (current <= 3 ==> r == [Page(1), Page(2), Page(3), Dots, Page(total)])
      && (3 < current && current >= total - 2 ==> r == [Page(1), Dots, Page(total - 2), Page(total - 1), Page(total)])
      && (3 < current < total - 2 ==> r == [Page(1), Dots, Page(current), Dots, Page(total)])
    ensures HasTotal(meta) ==> Compressed(r, TotalOf(meta))
    ensures HasTotal(meta) && 1 <= current <= TotalOf(meta) ==> Page(current) in r
  {
    if !HasTotal(meta) then []
    else
      var total := TotalOf(meta);
      if total <= 5 then
        RangeCompressed(total, current);
        Range(1, total)
      else if current <= 3 then
        HeadCompressed(total);
        [Page(1), Page(2), Page(3), Dots, Page(total)]
      else if current >= total - 2 then
        TailCompressed(total);
        [Page(1), Dots, Page(total - 2), Page(total - 1), Page(total)]
      else
        MiddleCompressed(total, current);
        [Page(1), Dots, Page(current), Dots, Page(total)]
  }

  lemma RangeCompressed(total: int, current: int)
    requires total <= 5
    ensures Compressed(Range(1, total), total)
    ensures 1 <= current <= total ==> Page(current) in Range(1, total)
  {
    var r := Range(1, total);
    if 1 <= current <= total {
      assert r[current - 1] == Page(current);
    }
  }

  lemma HeadCompressed(total: int)
    requires total > 5
    ensures Compressed([Page(1), Page(2), Page(3), Dots, Page(total)], total)
  {
  }

  lemma TailCompressed(total: int)
    requires total > 5
    ensures Compressed([Page(1), Dots, Page(total - 2), Page(total - 1), Page(total)], total)
  {
  }

  lemma MiddleCompressed(total: int, current: int)
    requires 3 < current < total - 2
    ensures Compressed([Page(1), Dots, Page(current), Dots, Page(total)], total)
  {
  }

  /** JavaScript's `<=` and `>=` against an integer: false whenever NaN is
      involved. */
  predicate AtMost(x: JsNumber.Num, k: int) {
    !x.NaN? && JsNumber.Value(x) <= k as real
  }

  predicate AtLeast(x: JsNumber.Num, k: int) {
    !x.NaN? && JsNumber.Value(x) >= k as real
  }

  /** A fractional page compares with an integer as the integer just below
      it does, shifted: it is at most k exactly when its floor is below k,
      and at least k exactly when its floor is at least k. */
  lemma FractionComparisons(x: JsNumber.Num, k: int)
    requires x.Fraction?
    ensures AtMost(x, k) <==> JsNumber.Floor(x) < k
    ensures AtLeast(x, k) <==> JsNumber.Floor(x) >= k
  {
    JsNumber.FractionBetweenIntegers(x);
  }

  /** `getPages()` exactly as written, where the current page is a JavaScript
      number that can be NaN. */
  function GetPagesAsWritten(meta: Option<Metadata>, current: JsNumber.Num): seq<PageItem<JsNumber.Num>> {
    if !HasTotal(meta) then []
    else
      var total := TotalOf(meta);
      if total <= 5 then Lift(Range(1, total))
      else if AtMost(current, 3) then [Page(JsNumber.Finite(1)), Page(JsNumber.Finite(2)), Page(JsNumber.Finite(3)), Dots, Page(JsNumber.Finite(total))]
      else if AtLeast(current, total - 2) then [Page(JsNumber.Finite(1)), Dots, Page(JsNumber.Finite(total - 2)), Page(JsNumber.Finite(total - 1)), Page(JsNumber.Finite(total))]
      else [Page(JsNumber.Finite(1)), Dots, Page(current), Dots, Page(JsNumber.Finite(total))]
  }

  function Lift(r: seq<PageItem<int>>): (l: seq<PageItem<JsNumber.Num>>)
    ensures |l| == |r|
    ensures forall i :: 0 <= i < |r| ==> l[i] == (if r[i].Page? then Page(JsNumber.Finite(r[i].n)) else Dots)
  {
    if |r| == 0 then [] else [if r[0].Page? then Page(JsNumber.Finite(r[0].n)) else Dots] + Lift(r[1..])
  }

  /** On an integer current page the window as written is the integer window. */
  lemma AsWrittenAgreesOnNumbers(meta: Option<Metadata>, current: int)
    ensures GetPagesAsWritten(meta, JsNumber.Finite(current)) == Lift(GetPages(meta, current))
  {
    if HasTotal(meta) && TotalOf(meta) > 5 {
      var total := TotalOf(meta);
      var l := Lift(GetPages(meta, current));
      assert |l| == 5;
    }
  }

  /** A page parameter that is not an integer reaches the window as written:
      with 10 pages, `?page=abc` shows a "NaN" link and `?page=5.5` a "5.5"
      link, each between two ellipses. */
  lemma NonIntegerPageShowsInWindow()
    ensures
      var meta := Some(Metadata(Some(10)));
      && GetPagesAsWritten(meta, CurrentPageAsWritten([("page", "abc")]))
           == [Page(JsNumber.Finite(1)), Dots, Page(JsNumber.NaN), Dots, Page(JsNumber.Finite(10))]
      && GetPagesAsWritten(meta, CurrentPageAsWritten([("page", "5.5")]))
           == [Page(JsNumber.Finite(1)), Dots, Page(JsNumber.Fraction(false, 5, "5")), Dots, Page(JsNumber.Finite(10))]
  {
    NaNPage();
    FractionPage();
  }

  lemma NaNPage()
    ensures GetPagesAsWritten(Some(Metadata(Some(10))), CurrentPageAsWritten([("page", "abc")]))
         == [Page(JsNumber.Finite(1)), Dots, Page(JsNumber.NaN), Dots, Page(JsNumber.Finite(10))]
  {
    assert SearchParams.Get([("page", "abc")], "page") == Some("abc");
    JsNumber.ParseBlankAndJunk();
    assert CurrentPageAsWritten([("page", "abc")]) == JsNumber.NaN;
  }

  lemma FractionPage()
    ensures GetPagesAsWritten(Some(Metadata(Some(10))), CurrentPageAsWritten([("page", "5.5")]))
         == [Page(JsNumber.Finite(1)), Dots, Page(JsNumber.Fraction(false, 5, "5")), Dots, Page(JsNumber.Finite(10))]
  {
    assert SearchParams.Get([("page", "5.5")], "page") == Some("5.5");
    JsNumber.ParseFraction();
    var half := JsNumber.Fraction(false, 5, "5");
    assert CurrentPageAsWritten([("page", "5.5")]) == half;
    assert JsNumber.Value(half) == 5.5 by {
      assert JsNumber.DigitsValue("5") == 5;
      assert JsNumber.Pow10(1) == 10;
    }
  }

  /** The window built from the URL's current page, read as an integer,
      links only to pages of 1..total, whatever the page parameter holds. */
  lemma WindowFromUrlIsCompressed(meta: Option<Metadata>, ps: SearchParams.Params)
    requires HasTotal(meta)
    ensures Compressed(GetPages(meta, CurrentPage(ps)), TotalOf(meta))
  {
  }

  /** The pagination bar is shown only when there is more than one page:
      `metadata && metadata.numberOfPages > 1`. */
  predicate Visible(meta: Option<Metadata>) {
    meta.Some? && meta.value.numberOfPages.Some? && meta.value.numberOfPages.value > 1
  }

  /** The bar is shown exactly when the window has at least two slots. */
  lemma VisibleIffWindowHasTwoSlots(meta: Option<Metadata>, current: int)
    ensures Visible(meta) <==> |GetPages(meta, current)| >= 2
  {
  }

  /** `changePage(page)`: without metadata, or for a page below 1 or above the
      page count, the URL is untouched; otherwise only the `page` parameter is
      set, and reading the current page back gives `page`. A missing page
      count does not bound the page from above (a comparison with undefined
      is false). */
  function ChangePage(meta: Option<Metadata>, ps: SearchParams.Params, page: int): (r: SearchParams.Params)
    ensures meta.None? || page < 1 ==> r == ps
    ensures meta.Some? && meta.value.numberOfPages.Some? && page > meta.value.numberOfPages.value ==> r == ps
    ensures meta.Some? && page >= 1 && (meta.value.numberOfPages.None? || page <= meta.value.numberOfPages.value) ==>
      && CurrentPage(r) == page
      && forall k :: k != "page" ==> SearchParams.Get(r, k) == SearchParams.Get(ps, k)
  {
    if meta.None? then ps
    else if page < 1 then ps
    else if meta.value.numberOfPages.Some? && page > meta.value.numberOfPages.value then ps
    else
      var r := SearchParams.Set(ps, "page", JsNumber.Show(JsNumber.Finite(page)));
      JsNumber.ParseShow(JsNumber.Finite(page));
      assert JsNumber.Show(JsNumber.Finite(page)) != "";
      r
  }

  /** JavaScript's `<` and `>` against an integer: false whenever NaN is
      involved. */
  predicate Below(x: JsNumber.Num, k: int) {
    !x.NaN? && JsNumber.Value(x) < k as real
  }

  predicate Above(x: JsNumber.Num, k: int) {
    !x.NaN? && JsNumber.Value(x) > k as real
  }

  /** The guard of `changePage` rejects the page. */
  predicate Rejected(meta: Option<Metadata>, page: JsNumber.Num) {
    meta.None? || Below(page, 1) || (meta.value.numberOfPages.Some? && Above(page, meta.value.numberOfPages.value))
  }

  /** `changePage(page)` exactly as written, where the page is a JavaScript
      number. Both comparisons of the guard are false for NaN, so a NaN page
      passes whenever there is metadata; a fraction passes when it lies within
      1..total. A page that passes is written with `toString()` and reads back
      as itself; nothing else in the URL changes. */
  function ChangePageAsWritten(meta: Option<Metadata>, ps: SearchParams.Params, page: JsNumber.Num): (r: SearchParams.Params)
    ensures Rejected(meta, page) ==> r == ps
    ensures !Rejected(meta, page) ==>
      && CurrentPageAsWritten(r) == page
      && forall k :: k != "page" ==> SearchParams.Get(r, k) == SearchParams.Get(ps, k)
  {
    if Rejected(meta, page) then ps
    else
      var r := SearchParams.Set(ps, "page", JsNumber.Show(page));
      JsNumber.ParseShow(page);
      assert JsNumber.Show(page) != "";
      r
  }

  /** On an integer page the guard as written is the integer guard. */
  lemma ChangePageAgreesOnIntegers(meta: Option<Metadata>, ps: SearchParams.Params, page: int)
    ensures ChangePageAsWritten(meta, ps, JsNumber.Finite(page)) == ChangePage(meta, ps, page)
  {
  }

  /** A NaN page always gets past the guard when there is metadata, and the
      URL then carries `page=NaN`. */
  lemma NaNPassesGuard(meta: Option<Metadata>, ps: SearchParams.Params)
    requires meta.Some?
    ensures ChangePageAsWritten(meta, ps, JsNumber.NaN) == SearchParams.Set(ps, "page", "NaN")
    ensures CurrentPageAsWritten(ChangePageAsWritten(meta, ps, JsNumber.NaN)) == JsNumber.NaN
  {
  }

  /** The Previous (k = -1) and Next (k = 1) buttons:
      `changePage(currentPage - 1)` and `changePage(currentPage + 1)`. */
  function Step(meta: Option<Metadata>, ps: SearchParams.Params, k: int): SearchParams.Params {
    ChangePageAsWritten(meta, ps, JsNumber.AddInt(CurrentPageAsWritten(ps), k))
  }

  /** From an integer page, Previous and Next act as the integer `changePage`
      on the neighbouring page. */
  lemma StepOnIntegerPage(meta: Option<Metadata>, ps: SearchParams.Params, k: int)
    requires CurrentPageAsWritten(ps).Finite?
    ensures Step(meta, ps, k) == ChangePage(meta, ps, CurrentPage(ps) + k)
  {
    assert JsNumber.AddInt(CurrentPageAsWritten(ps), k) == JsNumber.Finite(CurrentPage(ps) + k);
    ChangePageAgreesOnIntegers(meta, ps, CurrentPage(ps) + k);
  }

  /** From a page that is not an integer, Previous and Next never reach an
      integer page: the URL keeps a NaN or a fraction. */
  lemma StepKeepsNonInteger(meta: Option<Metadata>, ps: SearchParams.Params, k: int)
    requires !CurrentPageAsWritten(ps).Finite?
    ensures !CurrentPageAsWritten(Step(meta, ps, k)).Finite?
    ensures CurrentPageAsWritten(ps).NaN? ==> CurrentPageAsWritten(Step(meta, ps, k)).NaN?
  {
  }

  /** With 10 pages, Next on `?page=abc` writes `page=NaN` and Next on
      `?page=5.5` writes `page=6.5`. */
  lemma NextFromNonIntegerPage()
    ensures Step(Some(Metadata(Some(10))), [("page", "abc")], 1) == [("page", "NaN")]
    ensures Step(Some(Metadata(Some(10))), [("page", "5.5")], 1) == [("page", "6.5")]
  {
    var meta := Some(Metadata(Some(10)));
    assert SearchParams.Get([("page", "abc")], "page") == Some("abc");
    JsNumber.ParseBlankAndJunk();
    assert CurrentPageAsWritten([("page", "abc")]) == JsNumber.NaN;
    NaNPassesGuard(meta, [("page", "abc")]);
    NextFromHalf();
  }

  lemma NextFromHalf()
    ensures Step(Some(Metadata(Some(10))), [("page", "5.5")], 1) == [("page", "6.5")]
  {
    assert SearchParams.Get([("page", "5.5")], "page") == Some("5.5");
    JsNumber.ParseFraction();
    var next := JsNumber.Fraction(false, 6, "5");
    assert JsNumber.AddInt(CurrentPageAsWritten([("page", "5.5")]), 1) == next;
    assert JsNumber.Value(next) == 6.5 by {
      assert JsNumber.DigitsValue("5") == 5;
      assert JsNumber.Pow10(1) == 10;
    }
    assert JsNumber.NatToString(6) == "6";
    assert JsNumber.Show(next) == "6.5";
  }
}
