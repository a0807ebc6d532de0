/** The `usePagination` hook: the state of one paginated list (the current
    page, the page size, the filters, the rows of the page on show, the
    loading flag, the error and the totals) and the handlers that change it.

    A fetch is modelled as two steps: `BeginFetch` raises the loading flag,
    clears the error and hands out the request that the fetch callback is
    called with; `CompleteFetch` applies the callback's outcome, which the
    caller passes in. The effect that recomputes `totalPages` whenever
    `totalItems` or `limit` changes is applied inside the step that changes
    them. */
module PaginationHook {
  import opened Optional

  /** A filter value: the hook passes strings and numbers through untouched. */
  datatype FilterValue = Str(s: string) | Num(n: int)

  type Filters = map<string, FilterValue>

  /** The arguments the fetch callback is called with. */
  datatype PageRequest = PageRequest(page: int, limit: int, filters: Filters)

  /** What the fetch callback did: it resolved with a response whose `data`
      and `total` may be missing, or it rejected with an error whose
      `message` may be missing. */
  datatype FetchOutcome<R> =
    | Resolved(data: Option<seq<R>>, total: Option<nat>)
    | Rejected(message: Option<string>)

  /** The hook's state cells. */
  datatype PagerState<R> = PagerState(
    data: seq<R>,
    loading: bool,
    error: Option<string>,
    page: int,
    limit: int,
    totalItems: nat,
    totalPages: int,
    filters: Filters)

  const FetchFailedMessage := "Failed to fetch data"

  /** `Math.ceil(totalItems / limit) || 1`: the number of pages of `limit`
      rows needed for `totalItems` rows, and 1 when there are none. */
  function TotalPagesFor(totalItems: nat, limit: int): (n: int)
    requires limit >= 1
    ensures n >= 1
    ensures totalItems == 0 ==> n == 1
    ensures totalItems > 0 ==> (n - 1) * limit < totalItems <= n * limit
  {
    if totalItems == 0 then 1 else (totalItems + limit - 1) / limit
  }

  /** `Math.max(1, Math.min(n, totalPages))`. */
  function ClampPage(n: int, totalPages: int): (p: int)
    ensures p >= 1
    ensures totalPages >= 1 ==> p <= totalPages
    ensures 1 <= n <= totalPages ==> p == n
    ensures n < 1 ==> p == 1
    ensures n > totalPages >= 1 ==> p == totalPages
  {
    if n < 1 || totalPages < 1 then 1 else if n > totalPages then totalPages else n
  }

  /** The invariant the totals effect maintains. */
  ghost predicate Consistent<R>(s: PagerState<R>) {
    s.limit >= 1 && s.totalPages == TotalPagesFor(s.totalItems, s.limit)
  }

  function Initial<R>(filters: Filters, page: int, limit: int): (s: PagerState<R>)
    requires limit >= 1
    ensures Consistent(s)
  {
    PagerState([], false, None, page, limit, 0, 1, filters)
  }

  /** `handlePageChange`. */
  function WithPage<R>(s: PagerState<R>, n: int): (t: PagerState<R>)
  {
    s.(page := ClampPage(n, s.totalPages))
  }

  /** `handleLimitChange`, with the totals effect it triggers. */
  function WithLimit<R>(s: PagerState<R>, n: int): (t: PagerState<R>)
    requires n >= 1
  {
    s.(limit := n, page := 1, totalPages := TotalPagesFor(s.totalItems, n))
  }

  /** `handleFilterChange`: the new filters replace the old ones wholesale. */
  function WithFilters<R>(s: PagerState<R>, f: Filters): (t: PagerState<R>)
  {
    s.(filters := f, page := 1)
  }

  /** The request a fetch issued from this state sends. */
  function RequestOf<R>(s: PagerState<R>): PageRequest {
    PageRequest(s.page, s.limit, s.filters)
  }

  /** The start of `fetchData`. */
  function Begin<R>(s: PagerState<R>): (t: PagerState<R>)
  {
    s.(loading := true, error := None)
  }

  /** The end of `fetchData`: the `try` body or the `catch` block, then `finally`. */
  function Complete<R>(s: PagerState<R>, outcome: FetchOutcome<R>): (t: PagerState<R>)
    requires s.limit >= 1
  {
    match outcome
    case Resolved(data, total) =>
      var items := total.GetOr(0);
      s.(data := data.GetOr([]), totalItems := items,
         totalPages := TotalPagesFor(items, s.limit), loading := false)
    case Rejected(message) =>
      var text := if message.Some? && message.value != "" then message.value else FetchFailedMessage;
      s.(error := Some(text), data := [], loading := false)
  }

  /** Every handler and both fetch steps keep `totalPages` equal to the
      page count of `totalItems`, and none of them changes what it does not name. */
  lemma StepsKeepConsistent<R>(s: PagerState<R>, n: int, m: int, f: Filters, outcome: FetchOutcome<R>)
    requires Consistent(s) && m >= 1
    ensures Consistent(WithPage(s, n)) && Consistent(WithLimit(s, m)) && Consistent(WithFilters(s, f))
    ensures Consistent(Begin(s)) && Consistent(Complete(s, outcome))
    ensures WithFilters(s, f).limit == s.limit && WithFilters(s, f).data == s.data
    ensures WithPage(s, n).(page := s.page) == s
  {
  }

  /** Page changes always land on a page that exists. */
  lemma PageChangeInRange<R>(s: PagerState<R>, n: int)
    requires Consistent(s)
    ensures 1 <= WithPage(s, n).page <= s.totalPages
    ensures 1 <= n <= s.totalPages ==> WithPage(s, n).page == n
  {
  }

  /** Limit and filter changes always go back to the first page, whatever the page was. */
  lemma ResetsToFirstPage<R>(s: PagerState<R>, n: int, f: Filters)
    requires n >= 1
    ensures WithLimit(s, n).page == 1 && WithLimit(s, n).limit == n
    ensures WithFilters(s, f).page == 1 && WithFilters(s, f).filters == f
  {
  }

  /** A successful fetch shows the response and clears the error. */
  lemma FetchSucceeds<R>(s: PagerState<R>, data: Option<seq<R>>, total: Option<nat>)
    requires Consistent(s)
    ensures var t := Complete(Begin(s), Resolved(data, total));
      && t.data == data.GetOr([]) && t.totalItems == total.GetOr(0)
      && t.error == None && !t.loading
      && t.totalPages == TotalPagesFor(total.GetOr(0), s.limit)
      && RequestOf(t) == RequestOf(s)
  {
  }

  /** A failed fetch empties the rows, reports the error and keeps the totals. */
  lemma FetchFails<R>(s: PagerState<R>, message: Option<string>)
    requires Consistent(s)
    ensures var t := Complete(Begin(s), Rejected(message));
      && t.data == [] && !t.loading
      && t.error == Some(if message.Some? && message.value != "" then message.value else FetchFailedMessage)
      && t.totalItems == s.totalItems && t.totalPages == s.totalPages
      && RequestOf(t) == RequestOf(s)
  {
  }

  /** Refreshing twice against a backend that answers each request the same
      way ends in the same state as refreshing once. */
  lemma RefreshIdempotent<R>(s: PagerState<R>, backend: PageRequest -> FetchOutcome<R>)
    requires Consistent(s)
    ensures var once := Complete(Begin(s), backend(RequestOf(s)));
      Complete(Begin(once), backend(RequestOf(once))) == once
  {
    var once := Complete(Begin(s), backend(RequestOf(s)));
    assert RequestOf(once) == RequestOf(s);
  }

  /** A list of 25 rows in pages of 10 has 3 pages, and asking for page 5 shows page 3. */
  lemma ScenarioClampToLastPage<R>(filters: Filters, rows: seq<R>)
    ensures var s := Complete(Begin(Initial<R>(filters, 1, 10)), Resolved(Some(rows), Some(25)));
      s.totalPages == 3 && WithPage(s, 5).page == 3
  {
  }

  /** No rows: one page, page 1, nothing shown and no error. */
  lemma ScenarioEmptyList<R>(filters: Filters)
    ensures var s := Complete(Begin(Initial<R>(filters, 1, 10)), Resolved(Some([]), Some(0)));
      s.totalPages == 1 && s.page == 1 && s.data == [] && s.error == None
  {
  }

  /** The hook as a stateful object: each field is one `useState` cell. */
  class Pager<R> {
    var data: seq<R>
    var loading: bool
    var error: Option<string>
    var page: int
    var limit: int
    var totalItems: nat
    var totalPages: int
    var filters: Filters

    function State(): PagerState<R>
      reads this
    {
      PagerState(data, loading, error, page, limit, totalItems, totalPages, filters)
    }

    ghost predicate Valid()
      reads this
    {
      Consistent(State())
    }

    constructor (initialFilters: Filters, initialPage: int, initialLimit: int)
      requires initialLimit >= 1
      ensures Valid()
      ensures State() == Initial(initialFilters, initialPage, initialLimit)
      ensures data == [] && !loading && error == None && totalItems == 0 && totalPages == 1
      ensures page == initialPage && limit == initialLimit && filters == initialFilters
    {
      data := [];
      loading := false;
      error := None;
      page := initialPage;
      limit := initialLimit;
      totalItems := 0;
      totalPages := 1;
      filters := initialFilters;
    }

    /** `setPage`: clamps into [1, totalPages]. */
    method SetPage(newPage: int)
      requires Valid()
      modifies this
      ensures Valid()
      ensures State() == WithPage(old(State()), newPage)
      ensures 1 <= page <= totalPages
      ensures 1 <= newPage <= totalPages ==> page == newPage
    {
      var validPage := if newPage > totalPages then totalPages else newPage;
      validPage := if validPage < 1 then 1 else validPage;
      page := validPage;
    }

    /** `setLimit`: a new page size starts again at page 1. */
    method SetLimit(newLimit: int)
      requires Valid() && newLimit >= 1
      modifies this
      ensures Valid()
      ensures State() == WithLimit(old(State()), newLimit)
      ensures limit == newLimit && page == 1
    {
      limit := newLimit;
      page := 1;
      totalPages := TotalPagesFor(totalItems, limit);
    }

    /** `setFilters`: new filters replace the old ones and start again at page 1. */
    method SetFilters(newFilters: Filters)
      requires Valid()
      modifies this
      ensures Valid()
      ensures State() == WithFilters(old(State()), newFilters)
      ensures filters == newFilters && page == 1
    {
      filters := newFilters;
      page := 1;
    }

    /** The first half of `fetchData`, also what `refresh` starts: returns the
        arguments the callback is called with and changes no parameter. */
    method BeginFetch() returns (request: PageRequest)
      requires Valid()
      modifies this
      ensures Valid()
      ensures State() == Begin(old(State()))
      ensures request == PageRequest(page, limit, filters)
      ensures page == old(page) && limit == old(limit) && filters == old(filters)
    {
      loading := true;
      error := None;
      request := PageRequest(page, limit, filters);
    }

    /** The second half of `fetchData`, given what the callback did. */
    method CompleteFetch(outcome: FetchOutcome<R>)
      requires Valid()
      modifies this
      ensures Valid()
      ensures State() == Complete(old(State()), outcome)
      ensures !loading
    {
      match outcome {
        case Resolved(rows, total) =>
          data := rows.GetOr([]);
          totalItems := total.GetOr(0);
          totalPages := TotalPagesFor(totalItems, limit);
        case Rejected(message) =>
          error := Some(if message.Some? && message.value != "" then message.value else FetchFailedMessage);
          data := [];
      }
      loading := false;
    }
  }
}
