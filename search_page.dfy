/**
 * The search page's state record and its five functional updaters, and the
 * choice between spinner, "No results found" and the result list.
 */
module SearchPage {
  import opened Wrappers
  import opened Types

  /** `SearchStateT`. */
  datatype SearchState = SearchState(
    searchQuery: string,
    page: int,
    selectedCuisines: seq<string>,
    sortOption: string)

  /** The state the page starts in. */
  function Initial(): SearchState
  {
    SearchState("", 1, [], "bestMatch")
  }

  /** Replaces the whole cuisine list and goes back to page 1. */
  function SetSelectedCuisines(s: SearchState, cuisines: seq<string>): SearchState
  {
    s.(selectedCuisines := cuisines, page := 1)
  }

  function SetPage(s: SearchState, page: int): SearchState
  {
    s.(page := page)
  }

  function SetSortOption(s: SearchState, sortOption: string): SearchState
  {
    s.(sortOption := sortOption, page := 1)
  }

  /** The search bar's `onSubmit`: the submitted text becomes the query, on page 1. */
  function SetSearchQuery(s: SearchState, query: string): SearchState
  {
    s.(searchQuery := query, page := 1)
  }

  /** The search bar's `onReset`: clears the query and keeps the page. */
  function ResetSearch(s: SearchState): SearchState
  {
    s.(searchQuery := "")
  }

  /** The user actions that reach the state, one per updater. */
  datatype SearchAction =
    | SelectCuisines(cuisines: seq<string>)
    | ChangePage(page: int)
    | SortBy(sortOption: string)
    | Query(query: string)
    | Reset

  function Step(s: SearchState, a: SearchAction): SearchState
  {
    match a
    case SelectCuisines(c) => SetSelectedCuisines(s, c)
    case ChangePage(p) => SetPage(s, p)
    case SortBy(o) => SetSortOption(s, o)
    case Query(q) => SetSearchQuery(s, q)
    case Reset => ResetSearch(s)
  }

  /** Every change except paging and reset puts the user back on page 1. */
  lemma StepPage(s: SearchState, a: SearchAction)
    ensures a.ChangePage? ==> Step(s, a).page == a.page
    ensures a.Reset? ==> Step(s, a).page == s.page
    ensures !a.ChangePage? && !a.Reset? ==> Step(s, a).page == 1
  {
  }

  /** Each action changes only the fields it names (and the page, as above). */
  lemma StepFrame(s: SearchState, a: SearchAction)
    ensures Step(s, a).searchQuery == (if a.Query? then a.query else if a.Reset? then "" else s.searchQuery)
    ensures Step(s, a).selectedCuisines == (if a.SelectCuisines? then a.cuisines else s.selectedCuisines)
    ensures Step(s, a).sortOption == (if a.SortBy? then a.sortOption else s.sortOption)
  {
  }

  function StepAll(s: SearchState, actions: seq<SearchAction>): SearchState
    decreases |actions|
  {
    if actions == [] then s else StepAll(Step(s, actions[0]), actions[1..])
  }

  /**
   * Without paging actions the page is 1 or the page it started on: only
   * `setPage` moves it anywhere else.
   */
  lemma {:induction false} PageOnlyFromPaging(s: SearchState, actions: seq<SearchAction>)
    requires forall i :: 0 <= i < |actions| ==> !actions[i].ChangePage?
    ensures StepAll(s, actions).page == 1 || StepAll(s, actions).page == s.page
    ensures s.page == 1 ==> StepAll(s, actions).page == 1
    decreases |actions|
  {
    if actions != [] {
      StepPage(s, actions[0]);
      PageOnlyFromPaging(Step(s, actions[0]), actions[1..]);
    }
  }

  /** Sorting is kept across every action except choosing another sort. */
  lemma {:induction false} SortKeptWithoutSortBy(s: SearchState, actions: seq<SearchAction>)
    requires forall i :: 0 <= i < |actions| ==> !actions[i].SortBy?
    ensures StepAll(s, actions).sortOption == s.sortOption
    decreases |actions|
  {
    if actions != [] {
      StepFrame(s, actions[0]);
      SortKeptWithoutSortBy(Step(s, actions[0]), actions[1..]);
    }
  }

  /** Reset after a query gives the earlier state with an empty query, on page 1. */
  lemma QueryThenReset(s: SearchState, q: string)
    ensures ResetSearch(SetSearchQuery(s, q)) == s.(searchQuery := "", page := 1)
    ensures ResetSearch(ResetSearch(s)) == ResetSearch(s)
  {
  }

  /** What the page shows. */
  datatype PageView =
    | Spinner
    | NoResults
    | Results(restaurants: seq<Restaurant>, total: int, paginationPage: int, paginationPages: int)

  /** Spinner while loading; "No results found" without a city or result data. */
  function View(state: SearchState, city: Option<string>, isLoading: bool, results: Option<SearchResponse>): PageView
  {
    if isLoading then Spinner
    else if results.None? || city.None? || city.value == "" then NoResults
    else Results(results.value.data, results.value.pagination.total,
                 results.value.pagination.page, results.value.pagination.pages)
  }

  /** The view's three cases, and the pager shows the server's page, not the state's. */
  lemma ViewCases(state: SearchState, city: Option<string>, isLoading: bool, results: Option<SearchResponse>)
    ensures var v := View(state, city, isLoading, results);
      && (v.Spinner? <==> isLoading)
      && (v.NoResults? <==> !isLoading && (results.None? || city.None? || city.value == ""))
      && (v.Results? ==>
            v.paginationPage == results.value.pagination.page
            && v.paginationPages == results.value.pagination.pages
            && v.restaurants == results.value.data)
  {
  }

  /** The view does not depend on the requested page at all. */
  lemma ViewIgnoresStatePage(state: SearchState, page: int, city: Option<string>, isLoading: bool, results: Option<SearchResponse>)
    ensures View(state.(page := page), city, isLoading, results) == View(state, city, isLoading, results)
  {
  }
}
