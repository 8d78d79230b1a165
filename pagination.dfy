/**
 * The arithmetic of the dashboard's pagination bar: the "showing x-y of n"
 * range, the sliding window of page buttons with its first/last shortcuts and
 * ellipses, the four navigation buttons and the page-size reset.
 * Pages are numbered from 0; a button shows its page number plus one.
 */
module Pagination {
  import opened Wrappers

  function Min(a: int, b: int): (m: int)
    ensures m <= a && m <= b && (m == a || m == b)
  {
    if a <= b then a else b
  }

  function Max(a: int, b: int): (m: int)
    ensures m >= a && m >= b && (m == a || m == b)
  {
    if a >= b then a else b
  }

  // ---------------------------------------------------------------------------
  // "Показано startItem-endItem из totalItems"
  // ---------------------------------------------------------------------------

  /** The 1-based position of the first record on the current page. */
  function StartItem(currentPage: int, pageSize: int): int {
    currentPage * pageSize + 1
  }

  /** The 1-based position of the last record on the current page, capped by the total. */
  function EndItem(currentPage: int, pageSize: int, totalItems: int): (e: int)
    ensures e <= totalItems && e <= (currentPage + 1) * pageSize
    ensures e == totalItems || e == (currentPage + 1) * pageSize
  {
    Min((currentPage + 1) * pageSize, totalItems)
  }

  /** The number of pages a caller derives from the record count: `ceil(totalItems / pageSize)`. */
  function PageCount(totalItems: nat, pageSize: int): int
    requires pageSize > 0
  {
    (totalItems + pageSize - 1) / pageSize
  }

  lemma MulLeft(a: int, b: int, n: int)
    requires a <= b && n >= 0
    ensures a * n <= b * n
  {
    assert b * n - a * n == (b - a) * n;
  }

  /** The last page ends at or past the last record, and every other page before it. */
  lemma PageCountBounds(totalItems: nat, pageSize: int)
    requires pageSize > 0
    ensures (PageCount(totalItems, pageSize) - 1) * pageSize < totalItems
    ensures totalItems <= PageCount(totalItems, pageSize) * pageSize
  {
    var d := PageCount(totalItems, pageSize);
    var r := (totalItems + pageSize - 1) % pageSize;
    assert totalItems + pageSize - 1 == d * pageSize + r;
    assert (d - 1) * pageSize == d * pageSize - pageSize;
  }

  /**
   * On any page of a non-empty list, the shown range lies inside 1..totalItems
   * and holds at most a page of records; every page but the last is full, and
   * the next page starts right after it.
   */
  lemma ShowingRange(currentPage: int, pageSize: int, totalItems: nat)
    requires pageSize > 0 && 0 <= currentPage < PageCount(totalItems, pageSize)
    ensures 1 <= StartItem(currentPage, pageSize) <= EndItem(currentPage, pageSize, totalItems) <= totalItems
    ensures EndItem(currentPage, pageSize, totalItems) - StartItem(currentPage, pageSize) + 1 <= pageSize
    ensures currentPage + 1 < PageCount(totalItems, pageSize) ==>
      EndItem(currentPage, pageSize, totalItems) - StartItem(currentPage, pageSize) + 1 == pageSize &&
      StartItem(currentPage + 1, pageSize) == EndItem(currentPage, pageSize, totalItems) + 1
  {
    var d := PageCount(totalItems, pageSize);
    PageCountBounds(totalItems, pageSize);
    MulLeft(currentPage, d - 1, pageSize);
    MulLeft(0, currentPage, pageSize);
    assert (currentPage + 1) * pageSize == currentPage * pageSize + pageSize;
    if currentPage + 1 < d {
      MulLeft(currentPage + 1, d - 1, pageSize);
    }
  }

  // ---------------------------------------------------------------------------
  // The window of page buttons
  // ---------------------------------------------------------------------------

  /** The first and the last page that get a button of their own. */
  datatype PageWindow = PageWindow(startPage: int, endPage: int)

  /**
   * The window centred on the current page, then shifted left when it runs
   * past the last page. `maxVisiblePages / 2` is the floor: Dafny's division
   * by a positive number rounds down.
   */
  function Window(currentPage: int, totalPages: int, maxVisiblePages: int): PageWindow {
    var startPage := Max(0, currentPage - maxVisiblePages / 2);
    var endPage := Min(totalPages - 1, startPage + maxVisiblePages - 1);
    if endPage - startPage < maxVisiblePages - 1 then
      PageWindow(Max(0, endPage - maxVisiblePages + 1), endPage)
    else
      PageWindow(startPage, endPage)
  }

  /**
   * The window in closed form: it starts half a window before the current
   * page, but no later than a full window before the end and never before 0.
   */
  lemma WindowClosedForm(currentPage: int, totalPages: int, maxVisiblePages: int)
    ensures var w := Window(currentPage, totalPages, maxVisiblePages);
      && w.startPage == Max(0, Min(currentPage - maxVisiblePages / 2, totalPages - maxVisiblePages))
      && w.endPage == Min(totalPages - 1, w.startPage + maxVisiblePages - 1)
  {
  }

  /**
   * For a current page in range, the window lies inside the pages, contains
   * the current page, and has exactly `min(maxVisiblePages, totalPages)` pages.
   */
  lemma WindowShape(currentPage: int, totalPages: int, maxVisiblePages: int)
    requires maxVisiblePages >= 1 && 0 <= currentPage < totalPages
    ensures var w := Window(currentPage, totalPages, maxVisiblePages);
      && 0 <= w.startPage <= currentPage <= w.endPage <= totalPages - 1
      && w.endPage - w.startPage + 1 == Min(maxVisiblePages, totalPages)
  {
  }

  /** One entry of the page-number strip. */
  datatype PageEntry = PageButton(page: int, selected: bool) | Ellipsis

  /** The buttons of pages `lo..hi` in order, the current one selected. */
  function Buttons(lo: int, hi: int, currentPage: int): (r: seq<PageEntry>)
    ensures |r| == Max(0, hi - lo + 1)
    ensures forall k :: 0 <= k < |r| ==> r[k] == PageButton(lo + k, lo + k == currentPage)
    decreases hi - lo
  {
    if hi < lo then [] else Buttons(lo, hi - 1, currentPage) + [PageButton(hi, hi == currentPage)]
  }

  /** The shortcut to page 0 when the window does not start there, and an ellipsis across a gap. */
  function Leading(startPage: int): seq<PageEntry> {
    if startPage > 0 then [PageButton(0, false)] + (if startPage > 1 then [Ellipsis] else []) else []
  }

  /** An ellipsis across a gap and the shortcut to the last page when the window stops short of it. */
  function Trailing(endPage: int, totalPages: int): seq<PageEntry> {
    if endPage < totalPages - 1 then
      (if endPage < totalPages - 2 then [Ellipsis] else []) + [PageButton(totalPages - 1, false)]
    else []
  }

  /** The strip `renderPageNumbers` builds. */
  function PageNumbers(currentPage: int, totalPages: int, maxVisiblePages: int): seq<PageEntry> {
    var w := Window(currentPage, totalPages, maxVisiblePages);
    Leading(w.startPage) + Buttons(w.startPage, w.endPage, currentPage) + Trailing(w.endPage, totalPages)
  }

  /** `renderPageNumbers`: the window is corrected in place and the strip grown push by push. */
  method RenderPageNumbers(currentPage: int, totalPages: int, maxVisiblePages: int)
    returns (pages: seq<PageEntry>)
    ensures pages == PageNumbers(currentPage, totalPages, maxVisiblePages)
  {
    var startPage := Max(0, currentPage - maxVisiblePages / 2);
    var endPage := Min(totalPages - 1, startPage + maxVisiblePages - 1);
    if endPage - startPage < maxVisiblePages - 1 {
      startPage := Max(0, endPage - maxVisiblePages + 1);
    }
    assert Window(currentPage, totalPages, maxVisiblePages) == PageWindow(startPage, endPage);
    pages := PushLeading([], startPage);
    pages := PushButtons(pages, startPage, endPage, currentPage);
    pages := PushTrailing(pages, endPage, totalPages);
  }

  /** The shortcut to the first page and the left ellipsis, when the window leaves them room. */
  method PushLeading(pages: seq<PageEntry>, startPage: int) returns (r: seq<PageEntry>)
    ensures r == pages + Leading(startPage)
  {
    r := pages;
    if startPage > 0 {
      r := r + [PageButton(0, false)];
      if startPage > 1 {
        r := r + [Ellipsis];
      }
    }
  }

  /** The right ellipsis and the shortcut to the last page, when the window stops short of it. */
  method PushTrailing(pages: seq<PageEntry>, endPage: int, totalPages: int) returns (r: seq<PageEntry>)
    ensures r == pages + Trailing(endPage, totalPages)
  {
    r := pages;
    if endPage < totalPages - 1 {
      if endPage < totalPages - 2 {
        r := r + [Ellipsis];
      }
      r := r + [PageButton(totalPages - 1, false)];
    }
  }

  /** The `for` loop of `renderPageNumbers`: one button per page of the window, in order. */
  method PushButtons(pages: seq<PageEntry>, startPage: int, endPage: int, currentPage: int)
    returns (r: seq<PageEntry>)
    ensures r == pages + Buttons(startPage, endPage, currentPage)
  {
    r := pages;
    var i := startPage;
    while i <= endPage
      invariant startPage <= i && (i == startPage || i <= endPage + 1)
      invariant r == pages + Buttons(startPage, i - 1, currentPage)
      decreases endPage - i
    {
      r := r + [PageButton(i, i == currentPage)];
      i := i + 1;
    }
  }

  // ---------------------------------------------------------------------------
  // Shape of the strip
  // ---------------------------------------------------------------------------

  /**
   * The strip always begins with page 0 and ends with the last page, and
   * every button it shows is a page that exists.
   */
  lemma StripEnds(currentPage: int, totalPages: int, maxVisiblePages: int)
    requires maxVisiblePages >= 1 && 0 <= currentPage < totalPages
    ensures var p := PageNumbers(currentPage, totalPages, maxVisiblePages);
      && |p| > 0
      && p[0] == PageButton(0, currentPage == 0)
      && p[|p| - 1] == PageButton(totalPages - 1, currentPage == totalPages - 1)
      && forall k :: 0 <= k < |p| && p[k].PageButton? ==> 0 <= p[k].page < totalPages
  {
    var w := Window(currentPage, totalPages, maxVisiblePages);
    WindowShape(currentPage, totalPages, maxVisiblePages);
    var l, b, t := Leading(w.startPage), Buttons(w.startPage, w.endPage, currentPage), Trailing(w.endPage, totalPages);
    var p := l + b + t;
    assert |b| > 0;
    assert p[0] == (if l == [] then b[0] else l[0]);
    assert p[|p| - 1] == (if t == [] then b[|b| - 1] else t[|t| - 1]);
    forall k | 0 <= k < |p| && p[k].PageButton?
      ensures 0 <= p[k].page < totalPages
    {
      if k < |l| {
        assert p[k] == l[k];
      } else if k < |l| + |b| {
        assert p[k] == b[k - |l|];
      } else {
        assert p[k] == t[k - |l| - |b|];
      }
    }
  }

  /**
   * Exactly the current page is highlighted: a button is selected exactly
   * when it is the current page's, and the current page has a button.
   */
  lemma StripSelection(currentPage: int, totalPages: int, maxVisiblePages: int)
    requires maxVisiblePages >= 1 && 0 <= currentPage < totalPages
    ensures var p := PageNumbers(currentPage, totalPages, maxVisiblePages);
      && (forall k :: 0 <= k < |p| && p[k].PageButton? ==> (p[k].selected <==> p[k].page == currentPage))
      && exists k :: 0 <= k < |p| && p[k] == PageButton(currentPage, true)
  {
    var w := Window(currentPage, totalPages, maxVisiblePages);
    WindowShape(currentPage, totalPages, maxVisiblePages);
    var l, b, t := Leading(w.startPage), Buttons(w.startPage, w.endPage, currentPage), Trailing(w.endPage, totalPages);
    var p := l + b + t;
    forall k | 0 <= k < |p| && p[k].PageButton?
      ensures p[k].selected <==> p[k].page == currentPage
    {
      if k < |l| {
        assert p[k] == l[k];
      } else if k < |l| + |b| {
        assert p[k] == b[k - |l|];
      } else {
        assert p[k] == t[k - |l| - |b|];
      }
    }
    var j := |l| + (currentPage - w.startPage);
    assert p[j] == b[currentPage - w.startPage];
  }

  /**
   * Reading left to right, two neighbouring buttons show consecutive pages and
   * an ellipsis stands between two buttons with at least one page hidden
   * between them: no page is skipped without an ellipsis, none is shown twice.
   */
  lemma StripContiguity(currentPage: int, totalPages: int, maxVisiblePages: int, k: int)
    requires maxVisiblePages >= 1 && 0 <= currentPage < totalPages
    requires 0 <= k < |PageNumbers(currentPage, totalPages, maxVisiblePages)| - 1
    ensures var p := PageNumbers(currentPage, totalPages, maxVisiblePages);
      && (p[k].PageButton? && p[k + 1].PageButton? ==> p[k + 1].page == p[k].page + 1)
      && (p[k].Ellipsis? ==> 0 < k && p[k - 1].PageButton? && p[k + 1].PageButton? && p[k + 1].page > p[k - 1].page + 1)
      && (p[k].Ellipsis? ==> p[k + 1].PageButton?)
  {
    var w := Window(currentPage, totalPages, maxVisiblePages);
    WindowShape(currentPage, totalPages, maxVisiblePages);
    var s, e := w.startPage, w.endPage;
    var l, b, t := Leading(s), Buttons(s, e, currentPage), Trailing(e, totalPages);
    var p := l + b + t;
    assert |b| == e - s + 1;
    assert forall j :: 0 <= j < |l| ==> p[j] == l[j];
    assert forall j :: |l| <= j < |l| + |b| ==> p[j] == b[j - |l|];
    assert forall j :: |l| + |b| <= j < |p| ==> p[j] == t[j - |l| - |b|];
  }

  // ---------------------------------------------------------------------------
  // Navigation buttons and the whole bar
  // ---------------------------------------------------------------------------

  /** Which of first / previous / next / last are greyed out. */
  datatype NavButtons = NavButtons(firstDisabled: bool, prevDisabled: bool, nextDisabled: bool, lastDisabled: bool)

  function Navigation(currentPage: int, totalPages: int): NavButtons {
    NavButtons(currentPage == 0, currentPage == 0, currentPage >= totalPages - 1, currentPage >= totalPages - 1)
  }

  /**
   * On a page in range, each navigation button is enabled exactly when the
   * page it leads to (0, current - 1, current + 1, last) exists and differs
   * from the current one.
   */
  lemma NavigationTargets(currentPage: int, totalPages: int)
    requires 0 <= currentPage < totalPages
    ensures var nav := Navigation(currentPage, totalPages);
      && (!nav.firstDisabled <==> 0 != currentPage)
      && (!nav.prevDisabled <==> 0 <= currentPage - 1 < totalPages)
      && (!nav.nextDisabled <==> 0 <= currentPage + 1 < totalPages)
      && (!nav.lastDisabled <==> totalPages - 1 != currentPage)
  {
  }

  /** The page buttons are five on a wide screen and three on a narrow one. */
  function MaxVisiblePages(isMobile: bool): int {
    if isMobile then 3 else 5
  }

  /** The record range and the "Страница n" chip, shown together under `showInfo`. */
  datatype RangeInfo = RangeInfo(startItem: int, endItem: int, totalItems: int, pageChip: int)

  /** What the bar shows: range info, navigation, and page buttons on wide screens. */
  datatype PaginationView = PaginationView(
    info: Option<RangeInfo>,
    nav: NavButtons,
    pageNumbers: Option<seq<PageEntry>>
  )

  /** The component: nothing at all for a single page or none. */
  function Render(currentPage: int, totalPages: int, pageSize: int, totalItems: int,
                  showInfo: bool, isMobile: bool): (r: Option<PaginationView>)
    ensures r.None? <==> totalPages <= 1
    ensures r.Some? ==>
      && (r.value.info.Some? <==> showInfo)
      && (r.value.info.Some? ==>
            && r.value.info.value.pageChip == currentPage + 1
            && r.value.info.value.startItem == StartItem(currentPage, pageSize)
            && r.value.info.value.endItem == EndItem(currentPage, pageSize, totalItems)
            && r.value.info.value.totalItems == totalItems)
      && (r.value.pageNumbers.Some? <==> !isMobile)
      && r.value.nav == Navigation(currentPage, totalPages)
  {
    if totalPages <= 1 then None
    else
      Some(PaginationView(
        if showInfo then
          Some(RangeInfo(StartItem(currentPage, pageSize), EndItem(currentPage, pageSize, totalItems),
                         totalItems, currentPage + 1))
        else None,
        Navigation(currentPage, totalPages),
        if isMobile then None else Some(PageNumbers(currentPage, totalPages, MaxVisiblePages(isMobile)))))
  }

  /** A shown strip is the five-page strip: the three-page width is never drawn. */
  lemma RenderedStripIsWide(currentPage: int, totalPages: int, pageSize: int, totalItems: int,
                            showInfo: bool, isMobile: bool)
    requires Render(currentPage, totalPages, pageSize, totalItems, showInfo, isMobile).Some?
    requires Render(currentPage, totalPages, pageSize, totalItems, showInfo, isMobile).value.pageNumbers.Some?
    ensures Render(currentPage, totalPages, pageSize, totalItems, showInfo, isMobile).value.pageNumbers.value
      == PageNumbers(currentPage, totalPages, 5)
  {
  }

  // ---------------------------------------------------------------------------
  // Page-size change
  // ---------------------------------------------------------------------------

  /** The callbacks the bar raises. */
  datatype PagerEvent = PageSizeChanged(pageSize: int) | PageChanged(page: int)

  /** A parent that stores what the callbacks report. */
  datatype PagerState = PagerState(page: int, pageSize: int)

  function Apply(st: PagerState, e: PagerEvent): PagerState {
    match e
    case PageSizeChanged(size) => st.(pageSize := size)
    case PageChanged(page) => st.(page := page)
  }

  function ApplyAll(st: PagerState, es: seq<PagerEvent>): PagerState
    decreases |es|
  {
    if es == [] then st else ApplyAll(Apply(st, es[0]), es[1..])
  }

  /** `handlePageSizeChange`: report the new size, then go back to the first page. */
  function HandlePageSizeChange(value: int): (events: seq<PagerEvent>)
    ensures |events| == 2 && events[|events| - 1] == PageChanged(0)
  {
    [PageSizeChanged(value), PageChanged(0)]
  }

  /** Whatever the page was, choosing a page size lands on page 0 with that size. */
  lemma PageSizeChangeResets(st: PagerState, value: int)
    ensures ApplyAll(st, HandlePageSizeChange(value)) == PagerState(0, value)
  {
    var es := HandlePageSizeChange(value);
    var mid := Apply(st, PageSizeChanged(value));
    assert es[1..] == [PageChanged(0)] && es[1..][1..] == [];
    assert ApplyAll(st, es) == ApplyAll(mid, [PageChanged(0)]);
  }
}
