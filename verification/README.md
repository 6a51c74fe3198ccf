# Users browser: store, list service, pagination and page controller

A Dafny model of the sequential logic of a small Angular user browser:

- the in-memory user store (`UsersApi`): case-insensitive search by name,
  paging, lookup by id and removal by id, over seventeen seed records;
- the list service (`UsersService`): the published list state, the loading
  flag and the request in flight; a fetch merges the response with its request
  or falls back to the defaults on failure; a deletion removes the record and
  re-fetches, stepping back one page when the last record of a later page goes;
- the pagination control (`PaginationComponent`): the page-number list
  `[1..ceil(total/perPage)]`, page clicks and page-size changes;
- the users page (`UsersPageComponent`): which request each intent produces
  and how a published state updates the view, and (module `App`) the page,
  the service and the store wired together, one atomic step per intent.

Every fetch is one atomic transition (start, succeed or fail, finalize). A
fetch's failure is a boolean parameter, since the in-memory store never
fails. Strings are `seq<char>` and lower-casing covers the ASCII letters only.
Asking the store the same question twice gives the same answer because every
store operation is a pure function.

Modules: `Wrappers` (optional values), `Text` (lower-casing, substring
search), `Seqs` (order-preserving filter), `UsersApi`, `SeedStore`,
`UsersService`, `Pagination`, `UsersPage`, `App`.

Behaviour of the code that the model keeps as written:

- A page-size change emits page 1 but leaves the control's current page as it
  is.
- The first fetch sends the paging data without a `search` property. A
  successful first fetch therefore leaves the state's search absent (`None`),
  not the empty string.
- There is no request-sequence guard on overlapping fetches, and the model
  adds none.
- The code's record fields `id`, `user_name` and `is_active` are named `id`,
  `userName` and `isActive` in `UsersApi.UserDto`; the response's
  `total_count` is `totalCount`.

## Model

| member | source | states |
|---|---|---|
| Text.Lower | src/app/api/users.api.ts:30 | lower-casing keeps the length, turns each upper-case ASCII letter into its lower-case letter (code point + 32), leaves every other character alone, and leaves no upper-case letter |
| Text.LowerIdempotent | src/app/api/users.api.ts:30 | lower-casing an already lower-cased name changes nothing |
| Text.Includes | src/app/api/users.api.ts:30 | `includes` succeeds when the haystack starts with the needle and never when the needle is longer than the haystack |
| Text.IncludesIffOccurs | src/app/api/users.api.ts:30 | the `includes` scan succeeds exactly when the needle occurs at some offset of the haystack (both directions) |
| Text.ContainsIgnoresNeedleCase | src/app/api/users.api.ts:30 | the name test gives the same verdict for a search text and its lower-cased form |
| Text.MissingCharExcludes | src/app/api/users.api.ts:30 | a search text holding a character the name lacks never matches |
| Seqs.Filter | src/app/api/users.api.ts:30 | filtering keeps exactly the elements that pass, as an order-preserving subsequence, never longer than the input |
| Seqs.FilterKeepsAll | src/app/api/users.api.ts:31 | when every element passes, filtering returns the input unchanged |
| Seqs.FilterDropsOne | src/app/api/users.api.ts:44 | when exactly one element fails the test, filtering shortens the sequence by exactly one |
| Seqs.FilterCommutes | src/app/api/users.api.ts:29-31 | a search filter and a removal filter can be applied in either order |
| Seqs.FilterMultiset | src/app/api/users.api.ts:30 | the filtered sequence is, as a multiset, exactly the passing values with their counts |
| Seqs.FilterCount | src/app/api/users.api.ts:30 | each value that passes is kept as many times as it occurs; a value that fails is dropped entirely |
| UsersApi.Filtered | src/app/api/users.api.ts:29-31 | with a non-empty search, a record is selected iff its lower-cased name contains the lower-cased search; each selected record is kept as many times as it occurs in the store; an absent or empty search selects the whole store; the selection is a subsequence of the store |
| UsersApi.Slice | src/app/api/users.api.ts:33 | `slice(start, end)` for 0 <= start <= end clamps both bounds to the length and copies the elements from `start` on |
| UsersApi.GetList | src/app/api/users.api.ts:26-36 | the total is the size of the whole selection; the page holds at most `itemsPerPage` records, exactly `max(0, min(itemsPerPage, total - (pageNumber-1)*itemsPerPage))` of them, and they are the selection's records from offset `(pageNumber-1)*itemsPerPage` on |
| UsersApi.FirstPageShowsAll | src/app/api/users.api.ts:26-36 | when the selection fits on one page, page 1 returns all of it with its size as total |
| UsersApi.GetById | src/app/api/users.api.ts:38-41 | the result is null iff no record has the id; otherwise it is a store record with that id, and no earlier record has it |
| UsersApi.GetByIdFindsUnique | src/app/api/users.api.ts:38-41 | with unique ids, looking up a record's id returns that record |
| UsersApi.Remove | src/app/api/users.api.ts:43-46 | after removal no record has the id, every other record remains with its multiplicity, and the order is kept |
| UsersApi.RemoveAbsentIsNoop | src/app/api/users.api.ts:43-46 | removing an id no record has leaves the store unchanged |
| UsersApi.RemovePresentShrinks | src/app/api/users.api.ts:43-46 | with unique ids, removing a present id shrinks the store by exactly one record |
| UsersApi.FilterKeepsUniqueIds | src/app/api/users.api.ts:44 | filtering a store with unique ids keeps the ids unique |
| UsersApi.RemoveKeepsUniqueIds | src/app/api/users.api.ts:44 | removal keeps the store's ids unique |
| UsersApi.FilteredAfterRemove | src/app/api/users.api.ts:29-46 | searching after a removal equals removing from the search's answer |
| UsersApi.RemoveShrinksFiltered | src/app/api/users.api.ts:29-46 | removing a record the search selects shrinks the search's total by one |
| SeedStore.SeedShape | src/app/api/users.api.ts:6-24 | the seed store holds 17 records with unique ids |
| SeedStore.SeedLastPage | src/app/api/users.api.ts:6-35 | page 4 at five per page with no search returns the last 2 seed records, with total 17 |
| SeedStore.IvanSearch | src/app/api/users.api.ts:29-31 | in a 17-record store whose names follow the seed's pattern, the search "Ivan" selects exactly the records at positions 0, 2, 15 and 16, in order |
| SeedStore.SeedSearchIvan | src/app/api/users.api.ts:6-31 | on the seed store, the search "Ivan" selects exactly Ivan Z., Ivan C., Ivan L. and Ivan Q., in that order |
| SeedStore.SeedSearchIvanPage | src/app/api/users.api.ts:6-35 | page 1 of the search "Ivan" at five per page holds those four records with total 4 |
| UsersService.Merge | src/app/services/users-service.ts:66 | the published state takes the count and the records from the response and the page number, page size and search from the request |
| UsersService.FailedFetchRestoresInitial | src/app/services/users-service.ts:20-36 | the initial service (count 0, no records, idle) is valid, and a failed fetch returns any service to exactly it, since the fallback record at lines 68-77 equals the initial one |
| UsersService.StartFetch | src/app/services/users-service.ts:61-62 | starting a fetch raises the loading flag and records the payload as the request in flight, keeping the state |
| UsersService.FinishFetch | src/app/services/users-service.ts:79-82 | finalizing lowers the loading flag and clears the request in flight, keeping the state |
| UsersService.FetchUsers | src/app/services/users-service.ts:58-84 | on success the state is the store's answer merged with the payload (page number, size and search from the payload) and the answer is returned; on failure the state is the default record and the result is null; either way the fetch ends idle and valid, publishing loading-on, one state, loading-off |
| UsersService.FetchLoadingWindow | src/app/services/users-service.ts:61-82 | the loading flag is up after every proper prefix of a fetch's emissions and down after all of them |
| UsersService.CorrectedPage | src/app/services/users-service.ts:99-102 | the re-fetch page is `pageNumber - 1` iff the shown page had exactly one record and `pageNumber > 1`, otherwise `pageNumber`; it is at least 1 whenever `pageNumber` is |
| UsersService.RefetchRequest | src/app/services/users-service.ts:95-109 | a deletion re-fetches with the page number, size and search of the request in flight if there is one, else of the state; the page is corrected by the shown record count; an absent search becomes the empty string |
| UsersService.DeleteUser | src/app/services/users-service.ts:90-111 | a deletion removes the id from the store and then re-fetches unconditionally with `RefetchRequest`, ending idle and valid |
| UsersService.DeleteLoadingWindow | src/app/services/users-service.ts:90-111 | the loading flag is up from a deletion's first emission until its last and down after it |
| UsersService.SingleRecordPageIsLast | src/app/api/users.api.ts:26-36 | a page after the first that holds a single record is the last page: the selection has exactly `(pageNumber-1)*itemsPerPage + 1` records, and the shown record is one of them |
| UsersService.PreviousPageFull | src/app/api/users.api.ts:26-36 | when the selection fills exactly `pageNumber - 1` pages, page `pageNumber - 1` holds a full `itemsPerPage` records |
| UsersService.DeleteLastOnPageShowsFullPreviousPage | src/app/services/users-service.ts:97-110 | when the state is the store's answer for a page after the first that shows one record, deleting that record shows the previous page, with the same size and search, and that page is full |
| Pagination.InitialConsistent | src/app/components/pagination/pagination.component.ts:31-54 | the fresh control (page 1, total 0, five per page, no pages) has pages consistent with its total, and clicking page 1 emits nothing |
| Pagination.PageCount | src/app/components/pagination/pagination.component.ts:111-113 | the page count is the least count whose pages hold all records (`ceil(total/perPage)`) |
| Pagination.PageList | src/app/components/pagination/pagination.component.ts:114 | the page list has `count` entries and entry `i` is `i + 1` |
| Pagination.PageListMembers | src/app/components/pagination/pagination.component.ts:110-115 | the page list holds exactly the numbers 1 to `count`, strictly increasing |
| Pagination.SetPages | src/app/components/pagination/pagination.component.ts:110-115 | recomputing makes the pages agree with the total and the page size and changes nothing else |
| Pagination.SetTotal | src/app/components/pagination/pagination.component.ts:42-45 | setting the total stores it and recomputes the pages |
| Pagination.OnPageClick | src/app/components/pagination/pagination.component.ts:85-95 | clicking the current page changes nothing and emits nothing; clicking another page makes it current and emits it with the selected page size; consistent pages stay consistent |
| Pagination.OnPerPageChange | src/app/components/pagination/pagination.component.ts:67-73 | a null size is ignored; a size emits page 1 with that size, stores it and recomputes the pages, leaving the current page |
| Pagination.ClickedPageInRange | src/app/components/pagination/pagination.component.ts:110-115 | a page picked from the displayed list is at least 1 and starts inside the records |
| Pagination.NoRecordsNoPages | src/app/components/pagination/pagination.component.ts:111-114 | a total of 0 gives no pages |
| Pagination.SeventeenByFive | src/app/components/pagination/pagination.component.ts:111-114 | 17 records at five per page give pages `[1, 2, 3, 4]` |
| UsersPage.InitialShowsDefault | src/app/pages/users-page/users-page.component.ts:38-66 | the fresh page (no users, total 0, page 1 at five per page) already shows the service's initial state |
| UsersPage.InitialRequest | src/app/pages/users-page/users-page.component.ts:63-66 | the first fetch asks for the paging data alone; on a fresh page that is page 1, five per page, no search |
| UsersPage.SearchRequest | src/app/pages/users-page/users-page.component.ts:96-101 | a search change asks for page 1 at the page size last fetched, with a null search sent as the empty string |
| UsersPage.PaginationRequest | src/app/pages/users-page/users-page.component.ts:128-134 | a paging change asks for the event's page and size with the search field's current text, null sent as the empty string |
| UsersPage.ApplyState | src/app/pages/users-page/users-page.component.ts:108-114 | a published state sets the total, the users shown and the paging last fetched, and leaves the view kind and search field alone |
| UsersPage.ChangeViewKind | src/app/pages/users-page/users-page.component.ts:78-86 | a non-null view kind replaces the view kind and nothing else; null is filtered out |
| App.Start | src/app/pages/users-page/users-page.component.ts:38-66 | the started application has fetched nothing, shows no users and, on a store with unique ids, is settled |
| App.FetchAndShow | src/app/pages/users-page/users-page.component.ts:106-116 | the page then shows the store's answer merged with the request, or the default state when the fetch fails; the service ends idle and valid |
| App.OpenPage | src/app/pages/users-page/users-page.component.ts:76-117 | opening the page shows the store's answer to page 1 at five per page with no search, or the default state on failure, and keeps the application settled |
| App.ChangeSearch | src/app/pages/users-page/users-page.component.ts:92-104 | a search change shows the store's answer to page 1 of the new search at the page size shown before, or the default state on failure; the store and view kind are unchanged |
| App.ChangePaging | src/app/pages/users-page/users-page.component.ts:128-135 | a paging change shows the store's answer to the event's page and size with the current search, or the default state on failure; the store and view kind are unchanged |
| App.ChangeView | src/app/pages/users-page/users-page.component.ts:78-86 | a view-kind change touches neither the store nor the service, so it issues no fetch |
| App.RequestDelete | src/app/components/users-list/users-list.component.ts:47-49 | a deletion from the list removes the id from the store, keeps ids unique, and leaves the page showing the service's state after `deleteUser`: the re-fetched answer, or the default state on failure |
| App.Step | src/app/pages/users-page/users-page.component.ts:76-135 | only a deletion changes the store, and every intent keeps the application settled |
| App.Run | src/app/pages/users-page/users-page.component.ts:76-135 | any session of intents keeps the application settled: the page shows the service's state, the service is idle with a page number of at least 1, and the page never shows more users than its page size |

## Left out

- rxjs timing is not modelled: `delay(700)`, `delay(600)`, `debounceTime(500)`, `switchMap` cancellation, `takeUntil` teardown and `firstValueFrom`. Each fetch and each deletion is one atomic step.
- Overlapping fetches are not modelled. A request in flight during a deletion is an input to `UsersService.RefetchRequest`, not something the model produces.
- `BehaviorSubject` replays its current value to a new subscriber. The page's first update from that replay is not modelled. `App.OpenPage` applies only the state the fetch publishes, which is also the last one.
- Errors raised in the page's state callback are not modelled. Only a failure of the store call is.
- The store's `remove` cannot fail, so a failed removal does not arise. Only the re-fetch's outcome is a parameter.
- `toLowerCase` is full Unicode in the source. The model lowers the ASCII letters only.
- `slice` with a page number below 1 is not modelled: `UsersApi.GetList` requires `pageNumber >= 1`.
- The page-size control can hold null, for example after a form reset. Then `onPageClick` would emit a null size and `setPages` would divide by null. The model keeps the last non-null size.
- src/app/enums/view-kind.ts is not part of this model. Its values are taken to be `List` and `Cards`, both truthy.
- The templates are not part of this model, so the bindings of the pagination control's `currentPage` and `total` inputs are unknown. `Pagination` is therefore not wired into `App`.
- Angular glue is not modelled: decorators, change detection, `FormControl` plumbing, `trackBy` helpers, and the card and row components, which only forward a delete click.
