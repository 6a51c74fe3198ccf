/** The users page controller (`UsersPageComponent`): which list request each
    user intent produces, and how a published list state updates the view. */
module UsersPage {
  import opened Wrappers
  import opened UsersApi
  import opened UsersService

  /** How the users are shown: as a list or as cards. */
  datatype ViewKind = List | Cards

  /** What the page holds: the view kind, the search field's raw value
      (`null` is `None`), the users shown, the total, and the paging of the
      request whose answer is shown. */
  datatype PageView = PageView(
    viewKind: ViewKind,
    searchText: Option<string>,
    filteredUsers: seq<UserDto>,
    total: nat,
    lastFetched: RequestPagingData)

  /** The page as constructed: list view, empty search, nothing shown, paging
      at page 1 with five per page. */
  const Initial := PageView(List, Some(""), [], 0, RequestPagingData(1, 5))

  /** The freshly constructed page already shows the service's initial
      state: no users, a total of 0, page 1 at five per page. */
  lemma InitialShowsDefault()
    ensures Shows(Initial, DefaultState)
  {
  }

  /** The first fetch passes the paging data alone, so the request carries no
      search. */
  function InitialRequest(v: PageView): (req: ListRequest)
    ensures req.pageNumber == v.lastFetched.pageNumber
    ensures req.itemsPerPage == v.lastFetched.itemsPerPage
    ensures req.search.None?
    ensures v == Initial ==> req == ListRequest(1, None, 5)
  {
    ListRequest(v.lastFetched.pageNumber, None, v.lastFetched.itemsPerPage)
  }

  /** A (debounced) search change asks for page 1 at the page size last
      fetched, with a null search sent as the empty string. */
  function SearchRequest(v: PageView, search: Option<string>): (req: ListRequest)
    ensures req.pageNumber == 1
    ensures req.itemsPerPage == v.lastFetched.itemsPerPage
    ensures search.Some? ==> req.search == search
    ensures search.None? ==> req.search == Some("")
  {
    ListRequest(1, Some(search.GetOr("")), v.lastFetched.itemsPerPage)
  }

  /** A paging change asks for the event's page and page size with the
      search field's current text, null sent as the empty string. */
  function PaginationRequest(v: PageView, event: RequestPagingData): (req: ListRequest)
    ensures req.pageNumber == event.pageNumber && req.itemsPerPage == event.itemsPerPage
    ensures v.searchText.Some? ==> req.search == v.searchText
    ensures v.searchText.None? ==> req.search == Some("")
  {
    ListRequest(event.pageNumber, Some(v.searchText.GetOr("")), event.itemsPerPage)
  }

  /** The view shows `s`: its total, its records and its paging. */
  predicate Shows(v: PageView, s: ListState) {
    && v.total == s.totalCount
    && v.filteredUsers == s.items
    && v.lastFetched == RequestPagingData(s.pageNumber, s.itemsPerPage)
  }

  /** A published list state replaces the total, the users shown and the
      paging last fetched; the view kind and the search field are untouched. */
  function ApplyState(v: PageView, s: ListState): (r: PageView)
    ensures Shows(r, s)
    ensures r.viewKind == v.viewKind && r.searchText == v.searchText
  {
    v.(total := s.totalCount, filteredUsers := s.items,
       lastFetched := RequestPagingData(s.pageNumber, s.itemsPerPage))
  }

  /** A view-kind change passes the truthiness filter only when it is not
      null, and then replaces the view kind and nothing else. */
  function ChangeViewKind(v: PageView, value: Option<ViewKind>): (r: PageView)
    ensures value.Some? ==> r == v.(viewKind := value.value)
    ensures value.None? ==> r == v
  {
    if value.Some? then v.(viewKind := value.value) else v
  }
}
