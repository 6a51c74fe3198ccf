/** The users page wired to the service and the store: each user intent is
    one atomic step, and every list state the service publishes is applied
    to the page. */
module App {
  import opened Wrappers
  import opened UsersApi
  import opened UsersService
  import opened UsersPage

  /** The store, the service and the page together. */
  datatype App = App(db: seq<UserDto>, svc: Service, view: PageView)

  /** What the user can do on the page. */
  datatype Intent =
    | Open
    | SearchChanged(text: Option<string>)
    | PagingChanged(event: RequestPagingData)
    | ViewKindChanged(value: Option<ViewKind>)
    | DeleteRequested(id: string)

  /** The application as started on a store `db`: nothing fetched yet, and
      the page agrees with the service's default state. */
  function Start(db: seq<UserDto>): (r: App)
    ensures r.db == db && !r.svc.loading && r.svc.ongoing.None?
    ensures r.svc.state.totalCount == 0 && r.view.filteredUsers == []
    ensures UniqueIds(db) ==> Settled(r)
  {
    InitialShowsDefault();
    App(db, UsersService.Initial, UsersPage.Initial)
  }

  /** The page shows the service's state, the service is idle and valid, and
      the store's ids are unique. */
  predicate Settled(app: App) {
    && Valid(app.svc)
    && !app.svc.loading
    && app.svc.ongoing.None?
    && Shows(app.view, app.svc.state)
    && UniqueIds(app.db)
  }

  /** An intent the page can issue: paging events name a page of at least 1. */
  predicate Issuable(intent: Intent) {
    intent.PagingChanged? ==> intent.event.pageNumber >= 1
  }

  /** Run a fetch and show its published state. */
  function FetchAndShow(app: App, req: ListRequest, fails: bool): (r: App)
    requires req.pageNumber >= 1
    ensures r.db == app.db && Shows(r.view, r.svc.state)
    ensures r.view.viewKind == app.view.viewKind && r.view.searchText == app.view.searchText
    ensures !r.svc.loading && r.svc.ongoing.None? && Valid(r.svc)
    ensures !fails ==> r.svc.state == Merge(GetList(app.db, req), req)
    ensures fails ==> r.svc.state == DefaultState
  {
    var run := FetchUsers(app.svc, app.db, req, fails);
    App(app.db, run.after, ApplyState(app.view, run.after.state))
  }

  /** Opening the page: the page is created afresh and fetches its initial
      paging (page 1, five per page, no search). */
  function OpenPage(app: App, fails: bool): (r: App)
    ensures r.db == app.db && r.view.viewKind == List && r.view.searchText == Some("")
    ensures !fails ==> r.svc.state == Merge(GetList(app.db, ListRequest(1, None, 5)), ListRequest(1, None, 5))
    ensures fails ==> r.svc.state == DefaultState
    ensures Shows(r.view, r.svc.state)
    ensures UniqueIds(app.db) ==> Settled(r)
  {
    var reopened := app.(view := UsersPage.Initial);
    FetchAndShow(reopened, InitialRequest(reopened.view), fails)
  }

  /** A search change: the field takes the text, then page 1 is fetched at the
      page size last shown. */
  function ChangeSearch(app: App, text: Option<string>, fails: bool): (r: App)
    ensures r.db == app.db && r.view.searchText == text && r.view.viewKind == app.view.viewKind
    ensures Shows(r.view, r.svc.state)
    ensures !fails ==>
      r.svc.state.pageNumber == 1
      && r.svc.state.itemsPerPage == app.view.lastFetched.itemsPerPage
      && r.svc.state.search == Some(text.GetOr(""))
    ensures !fails ==> r.svc.state == Merge(GetList(app.db, SearchRequest(app.view, text)), SearchRequest(app.view, text))
    ensures fails ==> r.svc.state == DefaultState
    ensures UniqueIds(app.db) ==> Settled(r)
  {
    var typed := app.(view := app.view.(searchText := text));
    FetchAndShow(typed, SearchRequest(typed.view, text), fails)
  }

  /** A paging change: the event's page and size are fetched with the
      search field's current text. */
  function ChangePaging(app: App, event: RequestPagingData, fails: bool): (r: App)
    requires event.pageNumber >= 1
    ensures r.db == app.db && r.view.searchText == app.view.searchText && r.view.viewKind == app.view.viewKind
    ensures Shows(r.view, r.svc.state)
    ensures !fails ==>
      r.svc.state.pageNumber == event.pageNumber
      && r.svc.state.itemsPerPage == event.itemsPerPage
      && r.svc.state.search == Some(app.view.searchText.GetOr(""))
    ensures !fails ==> r.svc.state == Merge(GetList(app.db, PaginationRequest(app.view, event)), PaginationRequest(app.view, event))
    ensures fails ==> r.svc.state == DefaultState
    ensures UniqueIds(app.db) ==> Settled(r)
  {
    FetchAndShow(app, PaginationRequest(app.view, event), fails)
  }

  /** A view-kind change: the store and the service are untouched. */
  function ChangeView(app: App, value: Option<ViewKind>): (r: App)
    ensures r.db == app.db && r.svc == app.svc
    ensures value.Some? ==> r.view.viewKind == value.value
    ensures Shows(app.view, app.svc.state) ==> Shows(r.view, r.svc.state)
  {
    app.(view := ChangeViewKind(app.view, value))
  }

  /** A deletion from the list: the service removes the record and
      re-fetches; the page shows the result. */
  function RequestDelete(app: App, id: string, fails: bool): (r: App)
    requires Valid(app.svc)
    ensures r.db == Remove(app.db, id)
    ensures r.svc == DeleteUser(app.svc, app.db, id, fails).after
    ensures !fails ==> r.svc.state == Merge(GetList(r.db, RefetchRequest(app.svc)), RefetchRequest(app.svc))
    ensures fails ==> r.svc.state == DefaultState
    ensures Shows(r.view, r.svc.state) && !r.svc.loading && r.svc.ongoing.None? && Valid(r.svc)
    ensures r.view.viewKind == app.view.viewKind && r.view.searchText == app.view.searchText
    ensures UniqueIds(app.db) ==> UniqueIds(r.db)
  {
    var run := DeleteUser(app.svc, app.db, id, fails);
    RemoveKeepsUniqueIds(app.db, id);
    App(run.db, run.after, ApplyState(app.view, run.after.state))
  }

  /** One intent, with `fails` the outcome of the fetch it triggers, if any.
      Only a deletion changes the store, and every intent keeps the
      application settled. */
  function Step(app: App, intent: Intent, fails: bool): (r: App)
    requires Valid(app.svc) && Issuable(intent)
    ensures !intent.DeleteRequested? ==> r.db == app.db
    ensures Settled(app) ==> Settled(r)
  {
    match intent
    case Open => OpenPage(app, fails)
    case SearchChanged(text) => ChangeSearch(app, text, fails)
    case PagingChanged(event) => ChangePaging(app, event, fails)
    case ViewKindChanged(value) => ChangeView(app, value)
    case DeleteRequested(id) => RequestDelete(app, id, fails)
  }

  /** A session: each intent with the outcome of the fetch it triggers. */
  function Run(app: App, session: seq<(Intent, bool)>): (r: App)
    requires Settled(app)
    requires forall k :: 0 <= k < |session| ==> Issuable(session[k].0)
    ensures Settled(r)
    ensures |r.view.filteredUsers| <= r.view.lastFetched.itemsPerPage
    decreases |session|
  {
    if |session| == 0 then app
    else Run(Step(app, session[0].0, session[0].1), session[1..])
  }

}
