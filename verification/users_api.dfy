/** The in-memory user store (`UsersApi`): a list of user records that can be
    searched and paged, looked up by id, and shrunk by id. */
module UsersApi {
  import opened Wrappers
  import opened Text
  import opened Seqs

  /** One user record (`UserDto`). */
  datatype UserDto = UserDto(id: string, userName: string, isActive: bool)

  /** The page sizes a request may ask for. */
  type ItemsPerPage = n: int | n == 5 || n == 10 || n == 20 witness 5

  /** A list request: 1-based page number, page size, and an optional search
      text (`search?: string`; `None` is the absent property). */
  datatype ListRequest = ListRequest(pageNumber: int, search: Option<string>, itemsPerPage: ItemsPerPage)

  /** A paging request without a search (`RequestPagingData`). */
  datatype RequestPagingData = RequestPagingData(pageNumber: int, itemsPerPage: ItemsPerPage)

  /** A list response: the size of the whole filtered set and one page of it. */
  datatype UserListResponse = UserListResponse(totalCount: nat, items: seq<UserDto>)

  /** JavaScript truthiness of the optional search text: present and non-empty. */
  predicate SearchActive(search: Option<string>) {
    search.Some? && |search.value| > 0
  }

  /** The store's name test: the lower-cased name contains the lower-cased search. */
  predicate NameMatches(u: UserDto, search: string) {
    ContainsIgnoringCase(u.userName, search)
  }

  /** The store's filter test for a search text, as a function value. */
  function NameTest(search: string): UserDto -> bool {
    (u: UserDto) => NameMatches(u, search)
  }

  /** The records a request selects, in store order: those whose name matches
      an active search, or every record when the search is absent or empty. */
  function Filtered(db: seq<UserDto>, search: Option<string>): (r: seq<UserDto>)
    ensures SearchActive(search) ==> forall u :: u in r <==> u in db && NameMatches(u, search.value)
    ensures SearchActive(search) ==>
      forall u :: multiset(r)[u] == if NameMatches(u, search.value) then multiset(db)[u] else 0
    ensures !SearchActive(search) ==> r == db
    ensures IsSubsequence(r, db)
  {
    if SearchActive(search) then FilterMultiset(db, NameTest(search.value)); Filter(db, NameTest(search.value))
    else SubsequenceReflexive(db); db
  }

  /** `Array.prototype.slice(start, end)` for 0 <= start <= end: both bounds are
      clamped to the length. */
  function Slice<T>(s: seq<T>, start: nat, end: nat): (r: seq<T>)
    requires start <= end
    ensures |r| == if start >= |s| then 0 else (if end <= |s| then end else |s|) - start
    ensures forall i :: 0 <= i < |r| ==> r[i] == s[start + i]
  {
    if start >= |s| then [] else if end <= |s| then s[start..end] else s[start..]
  }

  /** `getList`: filter, then cut out page `pageNumber` of size `itemsPerPage`;
      the total is the size of the whole filtered set, not of the page. */
  function GetList(db: seq<UserDto>, req: ListRequest): (r: UserListResponse)
    requires req.pageNumber >= 1
    ensures r.totalCount == |Filtered(db, req.search)|
    ensures |r.items| <= req.itemsPerPage
    ensures var skipped := (req.pageNumber - 1) * req.itemsPerPage;
            |r.items| == Max(0, Min(req.itemsPerPage, r.totalCount - skipped))
    ensures var skipped := (req.pageNumber - 1) * req.itemsPerPage;
            forall i :: 0 <= i < |r.items| ==> r.items[i] == Filtered(db, req.search)[skipped + i]
  {
    var filtered := Filtered(db, req.search);
    UserListResponse(
      |filtered|,
      Slice(filtered, (req.pageNumber - 1) * req.itemsPerPage, req.pageNumber * req.itemsPerPage))
  }

  /** When the selection fits on one page, the first page shows all of it. */
  lemma FirstPageShowsAll(db: seq<UserDto>, req: ListRequest)
    requires req.pageNumber == 1
    requires |Filtered(db, req.search)| <= req.itemsPerPage
    ensures GetList(db, req) == UserListResponse(|Filtered(db, req.search)|, Filtered(db, req.search))
  {
    var found := Filtered(db, req.search);
    assert Slice(found, 0, req.itemsPerPage) == found;
  }

  function Min(a: int, b: int): int { if a <= b then a else b }
  function Max(a: int, b: int): int { if a >= b then a else b }

  /** No record before position `i` carries `id`. */
  predicate NoIdBefore(db: seq<UserDto>, id: string, i: int) {
    forall j :: 0 <= j < i && j < |db| ==> db[j].id != id
  }

  /** `getById`: the first record whose id is exactly `id`, or `None` (null). */
  function GetById(db: seq<UserDto>, id: string): (r: Option<UserDto>)
    ensures r.None? <==> forall u :: u in db ==> u.id != id
    ensures r.Some? ==> r.value in db && r.value.id == id
    ensures r.Some? ==> exists i :: 0 <= i < |db| && db[i] == r.value && NoIdBefore(db, id, i)
  {
    if |db| == 0 then None
    else if db[0].id == id then Some(db[0])
    else
      var r := GetById(db[1..], id);
      if r.Some? then
        var i :| 0 <= i < |db[1..]| && db[1..][i] == r.value && NoIdBefore(db[1..], id, i);
        assert db[i + 1] == r.value && NoIdBefore(db, id, i + 1);
        r
      else r
  }

  /** The remove filter's test: the record does not carry `id`. */
  function OtherId(id: string): UserDto -> bool {
    (u: UserDto) => u.id != id
  }

  /** `remove`: the store without the records whose id is `id`. */
  function Remove(db: seq<UserDto>, id: string): (r: seq<UserDto>)
    ensures forall u :: u in r <==> u in db && u.id != id
    ensures forall u :: multiset(r)[u] == if u.id != id then multiset(db)[u] else 0
    ensures IsSubsequence(r, db)
  {
    FilterMultiset(db, OtherId(id));
    Filter(db, OtherId(id))
  }

  /** No two records share an id. */
  predicate UniqueIds(db: seq<UserDto>) {
    forall i, j :: 0 <= i < j < |db| ==> db[i].id != db[j].id
  }

  /** Filtering keeps ids unique; in particular `remove` does. */
  lemma {:induction false} FilterKeepsUniqueIds(db: seq<UserDto>, keep: UserDto -> bool)
    requires UniqueIds(db)
    ensures UniqueIds(Filter(db, keep))
  {
    if |db| > 0 {
      var tail := db[1..];
      assert UniqueIds(tail) by {
        forall i, j | 0 <= i < j < |tail| ensures tail[i].id != tail[j].id {
          assert tail[i] == db[i + 1] && tail[j] == db[j + 1];
        }
      }
      FilterKeepsUniqueIds(tail, keep);
      if keep(db[0]) {
        var r := [db[0]] + Filter(tail, keep);
        forall i, j | 0 <= i < j < |r| ensures r[i].id != r[j].id {
          if i == 0 {
            assert r[j] in tail;
            var k :| 0 <= k < |tail| && tail[k] == r[j];
            assert db[k + 1] == r[j];
          } else {
            assert r[i] == Filter(tail, keep)[i - 1] && r[j] == Filter(tail, keep)[j - 1];
          }
        }
      }
    }
  }

  /** `remove` keeps the store's ids unique. */
  lemma RemoveKeepsUniqueIds(db: seq<UserDto>, id: string)
    ensures UniqueIds(db) ==> UniqueIds(Remove(db, id))
  {
    if UniqueIds(db) {
      FilterKeepsUniqueIds(db, OtherId(id));
    }
  }

  /** Removing a record and then searching gives the search's answer with the
      record removed. */
  lemma {:induction false} FilteredAfterRemove(db: seq<UserDto>, search: Option<string>, id: string)
    ensures Filtered(Remove(db, id), search) == Remove(Filtered(db, search), id)
  {
    if SearchActive(search) {
      FilterCommutes(db, OtherId(id), NameTest(search.value));
    }
  }

  /** Removing a record the search selects shrinks the search's answer by one. */
  lemma {:induction false} RemoveShrinksFiltered(db: seq<UserDto>, search: Option<string>, u: UserDto)
    requires UniqueIds(db)
    requires u in Filtered(db, search)
    ensures |Filtered(Remove(db, u.id), search)| == |Filtered(db, search)| - 1
  {
    FilteredAfterRemove(db, search, u.id);
    if SearchActive(search) {
      FilterKeepsUniqueIds(db, NameTest(search.value));
    }
    RemovePresentShrinks(Filtered(db, search), u);
  }

  /** Sending an absent search as the empty string selects the same records. */
  lemma FilteredEmptySearch(db: seq<UserDto>, search: Option<string>)
    ensures Filtered(db, Some(search.GetOr(""))) == Filtered(db, search)
  {
  }

  /** With unique ids, the lookup finds the one record carrying the id. */
  lemma {:induction false} GetByIdFindsUnique(db: seq<UserDto>, u: UserDto)
    requires UniqueIds(db)
    requires u in db
    ensures GetById(db, u.id) == Some(u)
  {
    if db[0] != u {
      assert db[0].id != u.id by {
        var k :| 0 <= k < |db| && db[k] == u;
        assert k > 0;
      }
      assert UniqueIds(db[1..]) by {
        forall i, j | 0 <= i < j < |db[1..]| ensures db[1..][i].id != db[1..][j].id {
          assert db[1..][i] == db[i + 1] && db[1..][j] == db[j + 1];
        }
      }
      GetByIdFindsUnique(db[1..], u);
    }
  }

  /** Removing an id that no record carries leaves the store unchanged. */
  lemma {:induction false} RemoveAbsentIsNoop(db: seq<UserDto>, id: string)
    requires GetById(db, id).None?
    ensures Remove(db, id) == db
  {
    FilterKeepsAll(db, OtherId(id));
  }

  /** Removing an id that a record carries shrinks the store by one record per
      carrier; with unique ids, by exactly one. */
  lemma RemovePresentShrinks(db: seq<UserDto>, u: UserDto)
    requires UniqueIds(db)
    requires u in db
    ensures |Remove(db, u.id)| == |db| - 1
  {
    var keep := OtherId(u.id);
    var k :| 0 <= k < |db| && db[k] == u;
    forall i | 0 <= i < |db| && i != k ensures keep(db[i]) {
      if i < k {
        assert db[i].id != db[k].id;
      } else {
        assert db[k].id != db[i].id;
      }
    }
    FilterDropsOne(db, keep, k);
  }
}
