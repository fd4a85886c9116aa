/**
 * The pagination bar of the leads list: whether it renders at all, the
 * previous/next targets, the strip of page buttons and ellipses over
 * `1..totalPages`, and the URL a page button navigates to.
 */
module Pagination {
  import opened Wrappers
  import opened Text
  import opened SearchParams

  /** One entry of the page strip. */
  datatype Item = PageButton(page: int, isCurrent: bool) | Ellipsis(page: int)

  /** A previous/next control: clickable with a target page, or disabled. */
  datatype NavButton = Enabled(target: int) | Disabled

  /** What the component renders when it renders anything. */
  datatype View = View(prevPage: Option<int>, nextPage: Option<int>, items: seq<Item>)

  /** First page, last page, and the pages next to the current one get a button. */
  predicate ShouldShow(page: int, currentPage: int, totalPages: int) {
    page == 1 || page == totalPages || (page >= currentPage - 1 && page <= currentPage + 1)
  }

  /** What one page number contributes to the strip. */
  function ItemFor(page: int, currentPage: int, totalPages: int): seq<Item> {
    if ShouldShow(page, currentPage, totalPages) then [PageButton(page, page == currentPage)]
    else if page == currentPage - 2 || page == currentPage + 2 then [Ellipsis(page)]
    else []
  }

  /** The strip for the pages `from..totalPages`, in ascending page order: an item is
      in it exactly when it is what its own page contributes. */
  function ItemsFrom(from: int, currentPage: int, totalPages: int): (r: seq<Item>)
    ensures forall i :: 0 <= i < |r| ==> from <= r[i].page <= totalPages
    ensures forall i, j :: 0 <= i < j < |r| ==> r[i].page < r[j].page
    ensures forall x :: x in r <==> from <= x.page <= totalPages && ItemFor(x.page, currentPage, totalPages) == [x]
    decreases totalPages - from
  {
    if from > totalPages then []
    else ItemFor(from, currentPage, totalPages) + ItemsFrom(from + 1, currentPage, totalPages)
  }

  /** The page strip: the map over `1..totalPages`. */
  function PageStrip(currentPage: int, totalPages: int): seq<Item> {
    ItemsFrom(1, currentPage, totalPages)
  }

  /** The component: nothing when there is at most one page; otherwise the
      previous/next pages and the page strip. */
  function Render(currentPage: int, totalPages: int): (r: Option<View>)
    ensures r.None? <==> totalPages <= 1
    ensures r.Some? ==> r.value.items == PageStrip(currentPage, totalPages)
  {
    if totalPages <= 1 then None
    else
      var prevPage := if currentPage > 1 then Some(currentPage - 1) else None;
      var nextPage := if currentPage < totalPages then Some(currentPage + 1) else None;
      Some(View(prevPage, nextPage, PageStrip(currentPage, totalPages)))
  }

  /** `page ? <enabled button> : <disabled button>`: a missing page and page 0 are
      both falsy and render the control disabled. */
  function NavOf(page: Option<int>): NavButton {
    if page.Some? && page.value != 0 then Enabled(page.value) else Disabled
  }

  /** `createPageUrl(page)`: the current path with the query's `page` set to the
      decimal text of `page` and every other parameter kept. */
  function CreatePageUrl(pathname: string, params: Params, page: int): (r: Href)
    ensures r.WithQuery? && r.path == pathname
    ensures "page" in r.query && IsIntLiteral(r.query["page"]) && IntValue(r.query["page"]) == page
    ensures r.query.Keys == params.Keys + {"page"}
    ensures forall k :: k in params && k != "page" ==> r.query[k] == params[k]
  {
    IntToStringValue(page);
    WithQuery(pathname, params["page" := IntToString(page)])
  }

  // ---------------------------------------------------------------- properties

  /** The previous target exists exactly when the current page is past the first,
      the next target exactly when it is before the last; each is one step away. */
  lemma PrevNextPages(currentPage: int, totalPages: int)
    requires totalPages > 1
    ensures var v := Render(currentPage, totalPages).value;
      && (v.prevPage.Some? <==> currentPage > 1)
      && (v.prevPage.Some? ==> v.prevPage.value == currentPage - 1)
      && (v.nextPage.Some? <==> currentPage < totalPages)
      && (v.nextPage.Some? ==> v.nextPage.value == currentPage + 1)
  {
  }

  /** The rendered controls. Previous is never dropped by falsiness, but a next
      target of 0 (current page -1) is, so Next is then disabled. */
  lemma NavButtons(currentPage: int, totalPages: int)
    requires totalPages > 1
    ensures var v := Render(currentPage, totalPages).value;
      && NavOf(v.prevPage) == (if currentPage > 1 then Enabled(currentPage - 1) else Disabled)
      && NavOf(v.nextPage) == (if currentPage < totalPages && currentPage != -1
                               then Enabled(currentPage + 1) else Disabled)
  {
  }

  /** A page has a button exactly when it is the first, the last, or next to the
      current page; only the current page's button is marked current. */
  lemma ButtonIff(currentPage: int, totalPages: int, page: int, isCurrent: bool)
    ensures PageButton(page, isCurrent) in PageStrip(currentPage, totalPages)
        <==> 1 <= page <= totalPages && ShouldShow(page, currentPage, totalPages)
             && isCurrent == (page == currentPage)
  {
  }

  /** A page that has no button shows an ellipsis exactly when it is two away from
      the current page; any other such page is omitted. */
  lemma EllipsisIff(currentPage: int, totalPages: int, page: int)
    ensures Ellipsis(page) in PageStrip(currentPage, totalPages)
        <==> 1 <= page <= totalPages && !ShouldShow(page, currentPage, totalPages)
             && (page == currentPage - 2 || page == currentPage + 2)
  {
  }

  /** With two pages or more, the first and the last page always have a button. */
  lemma EndsAlwaysShown(currentPage: int, totalPages: int)
    requires totalPages > 1
    ensures PageButton(1, currentPage == 1) in PageStrip(currentPage, totalPages)
    ensures PageButton(totalPages, currentPage == totalPages) in PageStrip(currentPage, totalPages)
  {
    ButtonIff(currentPage, totalPages, 1, currentPage == 1);
    ButtonIff(currentPage, totalPages, totalPages, currentPage == totalPages);
  }

  /** Exactly one item is marked current when the current page is in range, and
      none otherwise. */
  lemma CurrentMarkedOnce(currentPage: int, totalPages: int)
    ensures var s := PageStrip(currentPage, totalPages);
      forall i :: 0 <= i < |s| && s[i].PageButton? && s[i].isCurrent ==> s[i].page == currentPage
    ensures var s := PageStrip(currentPage, totalPages);
      1 <= currentPage <= totalPages <==> exists i :: 0 <= i < |s| && s[i] == PageButton(currentPage, true)
  {
    var s := PageStrip(currentPage, totalPages);
    if 1 <= currentPage <= totalPages {
      ButtonIff(currentPage, totalPages, currentPage, true);
      var i :| 0 <= i < |s| && s[i] == PageButton(currentPage, true);
    }
    forall i | 0 <= i < |s| && s[i].PageButton? && s[i].isCurrent ensures s[i].page == currentPage {
      assert s[i] in s;
    }
  }

  // ---------------------------------------------------------------- counting

  function CountButtons(items: seq<Item>): nat {
    if items == [] then 0
    else (if items[0].PageButton? then 1 else 0) + CountButtons(items[1..])
  }

  function CountEllipses(items: seq<Item>): nat {
    if items == [] then 0
    else (if items[0].Ellipsis? then 1 else 0) + CountEllipses(items[1..])
  }

  ghost function ShownPages(from: int, currentPage: int, totalPages: int): set<int> {
    set p | from <= p <= totalPages && ShouldShow(p, currentPage, totalPages)
  }

  ghost function GapPages(from: int, currentPage: int, totalPages: int): set<int> {
    set p | from <= p <= totalPages && !ShouldShow(p, currentPage, totalPages)
                                    && (p == currentPage - 2 || p == currentPage + 2)
  }

  lemma CountAppend(head: seq<Item>, rest: seq<Item>)
    requires |head| <= 1
    ensures CountButtons(head + rest) == CountButtons(head) + CountButtons(rest)
    ensures CountEllipses(head + rest) == CountEllipses(head) + CountEllipses(rest)
  {
    if |head| == 1 { assert (head + rest)[1..] == rest; } else { assert head + rest == rest; }
  }

  lemma ShownPagesStep(from: int, currentPage: int, totalPages: int)
    requires from <= totalPages
    ensures ShownPages(from, currentPage, totalPages)
         == (if ShouldShow(from, currentPage, totalPages) then {from} else {})
            + ShownPages(from + 1, currentPage, totalPages)
  {
  }

  lemma GapPagesStep(from: int, currentPage: int, totalPages: int)
    requires from <= totalPages
    ensures GapPages(from, currentPage, totalPages)
         == (if !ShouldShow(from, currentPage, totalPages) && (from == currentPage - 2 || from == currentPage + 2)
             then {from} else {})
            + GapPages(from + 1, currentPage, totalPages)
  {
  }

  lemma {:induction false} ButtonsOfStrip(from: int, currentPage: int, totalPages: int)
    ensures CountButtons(ItemsFrom(from, currentPage, totalPages)) == |ShownPages(from, currentPage, totalPages)|
    decreases totalPages - from
  {
    if from > totalPages {
      assert ShownPages(from, currentPage, totalPages) == {};
    } else {
      ButtonsOfStrip(from + 1, currentPage, totalPages);
      CountAppend(ItemFor(from, currentPage, totalPages), ItemsFrom(from + 1, currentPage, totalPages));
      ShownPagesStep(from, currentPage, totalPages);
    }
  }

  lemma {:induction false} EllipsesOfStrip(from: int, currentPage: int, totalPages: int)
    ensures CountEllipses(ItemsFrom(from, currentPage, totalPages)) == |GapPages(from, currentPage, totalPages)|
    decreases totalPages - from
  {
    if from > totalPages {
      assert GapPages(from, currentPage, totalPages) == {};
    } else {
      EllipsesOfStrip(from + 1, currentPage, totalPages);
      CountAppend(ItemFor(from, currentPage, totalPages), ItemsFrom(from + 1, currentPage, totalPages));
      GapPagesStep(from, currentPage, totalPages);
    }
  }

  lemma SubsetCard(a: set<int>, b: set<int>)
    requires a <= b
    ensures |a| <= |b|
  {
    assert b == a + (b - a);
  }

  lemma FiveAtMost(a: int, b: int, c: int, d: int, e: int)
    ensures |{a, b, c, d, e}| <= 5
  {
  }

  lemma ShownPagesCandidates(currentPage: int, totalPages: int)
    ensures ShownPages(1, currentPage, totalPages)
         <= {1, totalPages, currentPage - 1, currentPage, currentPage + 1}
  {
  }

  /** At most five page buttons and at most two ellipses are ever rendered. */
  lemma StripBounds(currentPage: int, totalPages: int)
    ensures CountButtons(PageStrip(currentPage, totalPages)) <= 5
    ensures CountEllipses(PageStrip(currentPage, totalPages)) <= 2
  {
    ButtonsOfStrip(1, currentPage, totalPages);
    EllipsesOfStrip(1, currentPage, totalPages);
    var candidates := {1, totalPages, currentPage - 1, currentPage, currentPage + 1};
    ShownPagesCandidates(currentPage, totalPages);
    SubsetCard(ShownPages(1, currentPage, totalPages), candidates);
    FiveAtMost(1, totalPages, currentPage - 1, currentPage, currentPage + 1);
    SubsetCard(GapPages(1, currentPage, totalPages), {currentPage - 2, currentPage + 2});
  }
}
