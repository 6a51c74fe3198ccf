/** The pagination control (`PaginationComponent`): the list of page numbers
    derived from the total and the page size, page clicks and page-size
    changes, each of which may emit a paging request. */
module Pagination {
  import opened Wrappers
  import opened UsersApi

  /** The control's state: the current page, the total number of records,
      the selected page size and the page numbers on display. */
  datatype Pager = Pager(currentPage: int, total: nat, perPage: ItemsPerPage, pages: seq<int>)

  /** The result of a user action: the new state and the paging request
      emitted, if any. */
  datatype Reaction = Reaction(after: Pager, emitted: Option<RequestPagingData>)

  /** A freshly created control: page 1, no records, five per page, no pages. */
  const Initial := Pager(1, 0, 5, [])

  /** The fresh control's page list agrees with its total and page size, and
      clicking its current page emits nothing. */
  lemma InitialConsistent()
    ensures PagesConsistent(Initial)
    ensures OnPageClick(Initial, 1).emitted.None?
  {
  }

  /** `Math.ceil(total / perPage)`: the least page count whose pages hold
      `total` records. */
  function PageCount(total: nat, perPage: ItemsPerPage): (count: nat)
    ensures count * perPage >= total
    ensures count == 0 || (count - 1) * perPage < total
  {
    (total + perPage - 1) / perPage
  }

  /** `[...Array(count).keys()].map(el => el + 1)`: the page numbers 1 to `count`. */
  function PageList(count: nat): (pages: seq<int>)
    ensures |pages| == count
    ensures forall i :: 0 <= i < |pages| ==> pages[i] == i + 1
  {
    seq(count, i requires 0 <= i < count => i + 1)
  }

  /** The page list holds exactly the numbers 1 to `count`, each once, in
      increasing order. */
  lemma PageListMembers(count: nat, x: int)
    ensures x in PageList(count) <==> 1 <= x <= count
    ensures forall i, j :: 0 <= i < j < count ==> PageList(count)[i] < PageList(count)[j]
  {
    if 1 <= x <= count {
      assert PageList(count)[x - 1] == x;
    }
  }

  /** The displayed pages agree with the total and the page size. */
  predicate PagesConsistent(p: Pager) {
    p.pages == PageList(PageCount(p.total, p.perPage))
  }

  /** `setPages`: recompute the page numbers from the total and page size. */
  function SetPages(p: Pager): (r: Pager)
    ensures PagesConsistent(r)
    ensures r.currentPage == p.currentPage && r.total == p.total && r.perPage == p.perPage
  {
    p.(pages := PageList(PageCount(p.total, p.perPage)))
  }

  /** The `total` input setter: store the value and recompute the pages. */
  function SetTotal(p: Pager, value: nat): (r: Pager)
    ensures r.total == value && PagesConsistent(r)
    ensures r.currentPage == p.currentPage && r.perPage == p.perPage
  {
    SetPages(p.(total := value))
  }

  /** `onPageClick`: clicking the current page does nothing; clicking another
      page makes it current and emits it with the selected page size. */
  function OnPageClick(p: Pager, pageNumber: int): (r: Reaction)
    ensures pageNumber == p.currentPage ==> r.after == p && r.emitted.None?
    ensures pageNumber != p.currentPage ==>
      r.after == p.(currentPage := pageNumber)
      && r.emitted == Some(RequestPagingData(pageNumber, p.perPage))
    ensures PagesConsistent(p) ==> PagesConsistent(r.after)
  {
    if p.currentPage == pageNumber then Reaction(p, None)
    else Reaction(p.(currentPage := pageNumber), Some(RequestPagingData(pageNumber, p.perPage)))
  }

  /** The page-size selector's change handler: a null value is ignored;
      otherwise page 1 is emitted with the new size and the pages are
      recomputed. The current page is left as it is. */
  function OnPerPageChange(p: Pager, value: Option<ItemsPerPage>): (r: Reaction)
    ensures value.None? ==> r.after == p && r.emitted.None?
    ensures value.Some? ==>
      r.emitted == Some(RequestPagingData(1, value.value))
      && r.after.perPage == value.value
      && r.after.currentPage == p.currentPage && r.after.total == p.total
      && PagesConsistent(r.after)
  {
    match value
    case None => Reaction(p, None)
    case Some(size) => Reaction(SetPages(p.(perPage := size)), Some(RequestPagingData(1, size)))
  }

  /** A page picked from the displayed list is a page that holds records. */
  lemma ClickedPageInRange(p: Pager, pageNumber: int)
    requires PagesConsistent(p)
    requires pageNumber in p.pages
    ensures 1 <= pageNumber
    ensures (pageNumber - 1) * p.perPage < p.total
  {
    var count := PageCount(p.total, p.perPage);
    PageListMembers(count, pageNumber);
    assert pageNumber - 1 <= count - 1;
    assert (pageNumber - 1) * p.perPage <= (count - 1) * p.perPage;
  }

  /** No records, no pages. */
  lemma NoRecordsNoPages(perPage: ItemsPerPage)
    ensures SetTotal(Initial, 0).pages == []
    ensures PageCount(0, perPage) == 0
  {
  }

  /** Seventeen records at five per page make four pages. */
  lemma SeventeenByFive()
    ensures SetTotal(Initial, 17).pages == [1, 2, 3, 4]
  {
    var pages := SetTotal(Initial, 17).pages;
    assert PageCount(17, 5) == 4;
    assert pages[0] == 1 && pages[1] == 2 && pages[2] == 3 && pages[3] == 4;
  }
}
