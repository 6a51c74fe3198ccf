/** The list-state orchestrator (`UsersService`): owns the list state, the
    loading flag and the parameters of the request in flight, and runs fetches
    and deletions against the store. Each fetch is one atomic step: start,
    then succeed or fail, then finalize. */
module UsersService {
  import opened Wrappers
  import opened UsersApi

  /** The published list state: a response merged with the request that
      produced it (`UserListResponseDto & ListRequest`). */
  datatype ListState = ListState(
    totalCount: nat,
    items: seq<UserDto>,
    search: Option<string>,
    itemsPerPage: ItemsPerPage,
    pageNumber: int)

  /** The service: list state, loading flag, and the request in flight. */
  datatype Service = Service(state: ListState, loading: bool, ongoing: Option<ListRequest>)

  /** What the service publishes, in order: a loading-flag value or a list state. */
  datatype Emission = LoadingSet(on: bool) | StateSet(state: ListState)

  /** The state the service starts with and falls back to after a failed fetch. */
  const DefaultState := ListState(0, [], Some(""), 5, 1)

  /** A freshly constructed service. */
  const Initial := Service(DefaultState, false, None)

  /** `{ ...data, ...payload }`: the response's count and items with the
      request's page number, page size and search. */
  function Merge(data: UserListResponse, payload: ListRequest): (s: ListState)
    ensures s.totalCount == data.totalCount && s.items == data.items
    ensures s.pageNumber == payload.pageNumber && s.itemsPerPage == payload.itemsPerPage
    ensures s.search == payload.search
  {
    ListState(data.totalCount, data.items, payload.search, payload.itemsPerPage, payload.pageNumber)
  }

  /** Start of `fetchUsers`: raise the loading flag and remember the payload. */
  function StartFetch(svc: Service, payload: ListRequest): (r: Service)
    ensures r.loading && r.ongoing == Some(payload)
    ensures r.state == svc.state
  {
    svc.(loading := true, ongoing := Some(payload))
  }

  /** End of `fetchUsers` (`finalize`): lower the flag, forget the payload. */
  function FinishFetch(svc: Service): (r: Service)
    ensures !r.loading && r.ongoing.None?
    ensures r.state == svc.state
  {
    svc.(loading := false, ongoing := None)
  }

  /** The service invariant: the shown page and any request in flight have a
      page number of at least 1, and the state never shows more records than
      its page size. */
  predicate Valid(svc: Service) {
    && svc.state.pageNumber >= 1
    && |svc.state.items| <= svc.state.itemsPerPage
    && (svc.ongoing.Some? ==> svc.ongoing.value.pageNumber >= 1)
  }

  /** The outcome of one fetch. */
  datatype FetchRun = FetchRun(after: Service, result: Option<UserListResponse>, emitted: seq<Emission>)

  /** `fetchUsers(payload)` as one step against the store `db`; `fails` says
      whether the store call errs (the in-memory store never does, a real
      backend might). On success the state becomes the merged response and the
      response is returned; on failure the state is reset to the defaults and
      the result is `None`. Either way the fetch ends with the loading flag down
      and no request in flight. */
  function FetchUsers(svc: Service, db: seq<UserDto>, payload: ListRequest, fails: bool): (run: FetchRun)
    requires payload.pageNumber >= 1
    ensures !run.after.loading && run.after.ongoing.None?
    ensures !fails ==> run.result == Some(GetList(db, payload))
    ensures !fails ==> run.after.state == Merge(GetList(db, payload), payload)
    ensures fails ==> run.result.None? && run.after.state == DefaultState
    ensures run.emitted == [LoadingSet(true), StateSet(run.after.state), LoadingSet(false)]
    ensures Valid(run.after)
  {
    var started := StartFetch(svc, payload);
    var outcome := if fails then None else Some(GetList(db, payload));
    var state := if fails then DefaultState else Merge(outcome.value, payload);
    var done := FinishFetch(started.(state := state));
    FetchRun(done, outcome, [LoadingSet(true), StateSet(state), LoadingSet(false)])
  }

  /** The freshly constructed service is idle and valid, and a failed fetch
      returns any service to exactly that condition: the fallback record is
      the initial record. */
  lemma FailedFetchRestoresInitial(svc: Service, db: seq<UserDto>, payload: ListRequest)
    requires payload.pageNumber >= 1
    ensures Valid(Initial) && !Initial.loading && Initial.ongoing.None?
    ensures Initial.state.totalCount == 0 && Initial.state.items == []
    ensures FetchUsers(svc, db, payload, true).after == Initial
  {
  }

  /** The page-correction rule of `deleteUser`: step back one page when the
      shown page held exactly one record and is not the first. */
  function CorrectedPage(shownItems: nat, pageNumber: int): (p: int)
    ensures p == pageNumber - 1 <==> shownItems == 1 && pageNumber > 1
    ensures p != pageNumber - 1 ==> p == pageNumber
    ensures pageNumber >= 1 ==> p >= 1
  {
    if shownItems == 1 && pageNumber > 1 then pageNumber - 1 else pageNumber
  }

  /** The request `deleteUser` re-fetches with: page number, page size and
      search of the request in flight if there is one, else of the current
      state; page corrected by the number of records the state shows; an
      absent search sent as the empty string. */
  function RefetchRequest(svc: Service): (req: ListRequest)
    ensures svc.ongoing.Some? ==>
      req.itemsPerPage == svc.ongoing.value.itemsPerPage
      && req.search == Some(svc.ongoing.value.search.GetOr(""))
      && req.pageNumber == CorrectedPage(|svc.state.items|, svc.ongoing.value.pageNumber)
    ensures svc.ongoing.None? ==>
      req.itemsPerPage == svc.state.itemsPerPage
      && req.search == Some(svc.state.search.GetOr(""))
      && req.pageNumber == CorrectedPage(|svc.state.items|, svc.state.pageNumber)
  {
    var (pageNumber, itemsPerPage, search) :=
      if svc.ongoing.Some? then (svc.ongoing.value.pageNumber, svc.ongoing.value.itemsPerPage, svc.ongoing.value.search)
      else (svc.state.pageNumber, svc.state.itemsPerPage, svc.state.search);
    ListRequest(CorrectedPage(|svc.state.items|, pageNumber), Some(search.GetOr("")), itemsPerPage)
  }

  /** The outcome of one deletion: the store after the removal and the
      service after the re-fetch. */
  datatype DeleteRun = DeleteRun(db: seq<UserDto>, after: Service, emitted: seq<Emission>)

  /** `deleteUser(id)`: raise the loading flag, remove the record from the
      store, then re-fetch unconditionally with `RefetchRequest`. The removal
      cannot fail; `fails` is the outcome of the re-fetch. */
  function DeleteUser(svc: Service, db: seq<UserDto>, id: string, fails: bool): (run: DeleteRun)
    requires Valid(svc)
    ensures run.db == Remove(db, id)
    ensures !run.after.loading && run.after.ongoing.None?
    ensures !fails ==> run.after.state == Merge(GetList(run.db, RefetchRequest(svc)), RefetchRequest(svc))
    ensures fails ==> run.after.state == DefaultState
    ensures |run.emitted| == 4 && run.emitted[0] == LoadingSet(true)
    ensures Valid(run.after)
  {
    var loading := svc.(loading := true);
    var db' := Remove(db, id);
    var fetch := FetchUsers(loading, db', RefetchRequest(loading), fails);
    DeleteRun(db', fetch.after, [LoadingSet(true)] + fetch.emitted)
  }

  /** The loading flag after publishing `es`, starting from `flag`. */
  function LoadingAfter(flag: bool, es: seq<Emission>): bool {
    if |es| == 0 then flag
    else if es[|es| - 1].LoadingSet? then es[|es| - 1].on
    else LoadingAfter(flag, es[..|es| - 1])
  }

  /** The loading flag is up from the first emission of a fetch until its
      last, and down after the last. */
  lemma FetchLoadingWindow(svc: Service, db: seq<UserDto>, payload: ListRequest, fails: bool, flag: bool)
    requires payload.pageNumber >= 1
    ensures var es := FetchUsers(svc, db, payload, fails).emitted;
      (forall k :: 1 <= k < |es| ==> LoadingAfter(flag, es[..k]))
      && !LoadingAfter(flag, es)
  {
    var es := FetchUsers(svc, db, payload, fails).emitted;
    assert es[..1] == [LoadingSet(true)];
    assert es[..2][..1] == es[..1];
  }

  /** The same holds of a deletion: up from its first emission, down after
      its last. */
  lemma DeleteLoadingWindow(svc: Service, db: seq<UserDto>, id: string, fails: bool, flag: bool)
    requires Valid(svc)
    ensures var es := DeleteUser(svc, db, id, fails).emitted;
      (forall k :: 1 <= k < |es| ==> LoadingAfter(flag, es[..k]))
      && !LoadingAfter(flag, es)
  {
    var es := DeleteUser(svc, db, id, fails).emitted;
    var fetched := FetchUsers(svc.(loading := true), Remove(db, id), RefetchRequest(svc), fails);
    assert es == [LoadingSet(true), LoadingSet(true), StateSet(fetched.after.state), LoadingSet(false)];
    assert LoadingAfter(flag, es[..1]) by { assert es[..1] == [LoadingSet(true)]; }
    assert LoadingAfter(flag, es[..2]) by { assert es[..2] == [LoadingSet(true), LoadingSet(true)]; }
    assert LoadingAfter(flag, es[..3]) by { assert es[..3][..2] == es[..2]; }
  }

  /** A page after the first that shows a single record is the last page,
      and its record is one the search selects. */
  lemma SingleRecordPageIsLast(db: seq<UserDto>, req: ListRequest)
    requires req.pageNumber > 1
    requires |GetList(db, req).items| == 1
    ensures |Filtered(db, req.search)| == (req.pageNumber - 1) * req.itemsPerPage + 1
    ensures GetList(db, req).items[0] in Filtered(db, req.search)
  {
  }

  /** When the search selects exactly `pageNumber - 1` full pages of records,
      page `pageNumber - 1` is full. */
  lemma PreviousPageFull(db: seq<UserDto>, req: ListRequest)
    requires req.pageNumber > 1
    requires |Filtered(db, req.search)| == (req.pageNumber - 1) * req.itemsPerPage
    ensures |GetList(db, req.(pageNumber := req.pageNumber - 1)).items| == req.itemsPerPage
  {
    var n := req.itemsPerPage;
    assert (req.pageNumber - 2) * n == (req.pageNumber - 1) * n - n;
  }

  /** Deleting the only record shown on a page after the first, when the state
      is the store's answer to its request and nothing is in flight, re-fetches
      the previous page, which is full: the view never lands on an empty page. */
  lemma {:induction false} DeleteLastOnPageShowsFullPreviousPage(svc: Service, db: seq<UserDto>, req: ListRequest)
    requires UniqueIds(db)
    requires req.pageNumber > 1
    requires svc.ongoing.None? && svc.state == Merge(GetList(db, req), req)
    requires |svc.state.items| == 1
    ensures var run := DeleteUser(svc, db, svc.state.items[0].id, false);
      && run.after.state.pageNumber == req.pageNumber - 1
      && run.after.state.itemsPerPage == req.itemsPerPage
      && run.after.state.search == Some(req.search.GetOr(""))
      && |run.after.state.items| == req.itemsPerPage
  {
    var u := svc.state.items[0];
    SingleRecordPageIsLast(db, req);
    var db' := Remove(db, u.id);
    RemoveShrinksFiltered(db, req.search, u);
    FilteredEmptySearch(db', req.search);
    var refetch := RefetchRequest(svc);
    assert refetch == ListRequest(req.pageNumber - 1, Some(req.search.GetOr("")), req.itemsPerPage);
    PreviousPageFull(db', refetch.(pageNumber := req.pageNumber));
    var run := DeleteUser(svc, db, u.id, false);
    assert run.after.state == Merge(GetList(db', refetch), refetch);
  }
}
