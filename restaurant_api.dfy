/**
 * The restaurant read hooks: the parameter list and path of a search request,
 * the guards that decide whether a request is issued, the cache keys, and the
 * error every failure becomes.
 */
module RestaurantApi {
  import opened Wrappers
  import opened Types
  import opened Decimal
  import opened UrlParams
  import opened SearchPage

  const FailedToGetRestaurant: string := "Failed to get restaurant"

  /** `Array.prototype.join(",")`. */
  function Join(xs: seq<string>): (r: string)
    ensures xs == [] ==> r == ""
  {
    if xs == [] then ""
    else if |xs| == 1 then xs[0]
    else xs[0] + "," + Join(xs[1..])
  }

  /** Splitting on ",", the inverse a server applies to the joined list. */
  function Split(s: string): (r: seq<string>)
    ensures |r| >= 1
    decreases |s|
  {
    if ',' !in s then [s]
    else
      var i := FirstComma(s);
      [s[..i]] + Split(s[i + 1..])
  }

  function FirstComma(s: string): (i: nat)
    requires ',' in s
    ensures i < |s| && s[i] == ',' && ',' !in s[..i]
  {
    if s[0] == ',' then 0
    else
      assert ',' in s[1..] by {
        var k :| 0 <= k < |s| && s[k] == ',';
        assert s[1..][k - 1] == ',';
      }
      var j := FirstComma(s[1..]);
      assert s[..j + 1] == [s[0]] + s[1..][..j];
      j + 1
  }

  predicate CommaFree(x: string)
  {
    ',' !in x
  }

  /** Splitting text that starts with a comma-free name and a comma. */
  lemma SplitAt(a: string, tail: string)
    requires CommaFree(a)
    ensures Split(a + "," + tail) == [a] + Split(tail)
  {
    var s := a + "," + tail;
    assert s[|a|] == ',';
    var i := FirstComma(s);
    assert i == |a|;
    assert s[..i] == a;
    assert s[i + 1..] == tail;
  }

  /** Any non-empty list of comma-free names comes back from the joined text. */
  lemma {:induction false} SplitJoin(xs: seq<string>)
    requires xs != []
    requires forall i :: 0 <= i < |xs| ==> CommaFree(xs[i])
    ensures Split(Join(xs)) == xs
    decreases |xs|
  {
    if |xs| > 1 {
      SplitAt(xs[0], Join(xs[1..]));
      SplitJoin(xs[1..]);
      assert xs == [xs[0]] + xs[1..];
    }
  }

  /** An empty selection is sent as "", the same text as a selection of the one name "". */
  lemma EmptySelectionIsEmptyText()
    ensures Join([]) == "" && Join([""]) == ""
  {
  }

  /** The parameter list `createSearchRequest` builds, before percent-encoding. */
  function SearchParamsFor(state: SearchState): seq<Entry>
  {
    [("searchQuery", state.searchQuery),
     ("page", IntToString(state.page)),
     ("selectedCuisines", Join(state.selectedCuisines)),
     ("sortOption", state.sortOption)]
  }

  /** `createSearchRequest`: four `set` calls on a fresh `URLSearchParams`. */
  method CreateSearchParams(state: SearchState) returns (entries: seq<Entry>)
    ensures entries == SearchParamsFor(state)
  {
    var params := new SearchParams();
    params.Set("searchQuery", state.searchQuery);
    NamesAppend([], ("searchQuery", state.searchQuery));
    params.Set("page", IntToString(state.page));
    NamesAppend([("searchQuery", state.searchQuery)], ("page", IntToString(state.page)));
    params.Set("selectedCuisines", Join(state.selectedCuisines));
    NamesAppend([("searchQuery", state.searchQuery), ("page", IntToString(state.page))],
                ("selectedCuisines", Join(state.selectedCuisines)));
    params.Set("sortOption", state.sortOption);
    entries := params.entries;
  }

  /** Reading the request back: each of the four names answers the state's field. */
  lemma SearchParamsReadBack(state: SearchState)
    ensures Get(SearchParamsFor(state), "searchQuery") == Some(state.searchQuery)
    ensures Get(SearchParamsFor(state), "page").Some?
    ensures ParseInt(Get(SearchParamsFor(state), "page").value) == Some(state.page)
    ensures Get(SearchParamsFor(state), "sortOption") == Some(state.sortOption)
    ensures Get(SearchParamsFor(state), "selectedCuisines") == Some(Join(state.selectedCuisines))
    ensures state.selectedCuisines != [] && (forall i :: 0 <= i < |state.selectedCuisines| ==> CommaFree(state.selectedCuisines[i]))
            ==> Split(Get(SearchParamsFor(state), "selectedCuisines").value) == state.selectedCuisines
  {
    var e := SearchParamsFor(state);
    assert e[1..] == [e[1], e[2], e[3]];
    assert e[1..][1..] == [e[2], e[3]];
    assert e[1..][1..][1..] == [e[3]];
    GetSkip(e, "selectedCuisines");
    GetSkip(e[1..], "selectedCuisines");
    GetSkip(e, "sortOption");
    GetSkip(e[1..], "sortOption");
    GetSkip(e[1..][1..], "sortOption");
    IntToStringRoundTrip(state.page);
    if state.selectedCuisines != [] && (forall i :: 0 <= i < |state.selectedCuisines| ==> CommaFree(state.selectedCuisines[i])) {
      SplitJoin(state.selectedCuisines);
    }
  }

  /** The search path: the city as the last path segment. */
  function SearchPath(city: string): (r: string)
    ensures |r| == 23 + |city|
    ensures r[..23] == "/api/restaurant/search/" && r[23..] == city
  {
    "/api/restaurant/search/" + city
  }

  /** `enabled: !!city` and `enabled: !!restaurantId`. */
  predicate Enabled(param: Option<string>)
  {
    param.Some? && param.value != ""
  }

  /** The react-query cache keys of the two hooks. */
  datatype QueryKey = SearchRestaurants(state: SearchState) | FetchRestaurant

  function SearchKey(state: SearchState): QueryKey
  {
    SearchRestaurants(state)
  }

  function RestaurantKey(restaurantId: Option<string>): QueryKey
  {
    FetchRestaurant
  }

  /** Search results are cached per whole state; restaurant lookups share one key whatever the id. */
  lemma QueryKeys(a: SearchState, b: SearchState, x: Option<string>, y: Option<string>)
    ensures SearchKey(a) == SearchKey(b) <==> a == b
    ensures RestaurantKey(x) == RestaurantKey(y)
    ensures SearchKey(a) != RestaurantKey(x)
  {
  }

  /** The answer of the back end, or a transport failure with its own message. */
  datatype Response<T> = Received(body: T) | Failed(reason: string)

  /** `getRestaurantByIdRequest`: `response.data.restaurant`, any failure re-raised with one message. */
  function RestaurantResult(r: Response<Restaurant>): (res: Result<Restaurant, string>)
    ensures res.Ok? <==> r.Received?
    ensures res.Ok? ==> res.value == r.body
    ensures res.Err? ==> res.error == FailedToGetRestaurant
  {
    match r
    case Received(rest) => Ok(rest)
    case Failed(_) => Err(FailedToGetRestaurant)
  }

  /** `createSearchRequest`: `response.data`, any failure re-raised with the same message. */
  function SearchResult(r: Response<SearchResponse>): (res: Result<SearchResponse, string>)
    ensures res.Ok? <==> r.Received?
    ensures res.Ok? ==> res.value == r.body
    ensures res.Err? ==> res.error == FailedToGetRestaurant
  {
    match r
    case Received(body) => Ok(body)
    case Failed(_) => Err(FailedToGetRestaurant)
  }

  /** The search request issued for a state and city: none without a city. */
  function SearchRequest(state: SearchState, city: Option<string>): (r: Option<(string, seq<Entry>)>)
    ensures r.Some? <==> Enabled(city)
    ensures r.Some? ==> r.value.0 == SearchPath(city.value) && Get(r.value.1, "searchQuery") == Some(state.searchQuery)
  {
    if Enabled(city) then
      SearchParamsReadBack(state);
      Some((SearchPath(city.value), SearchParamsFor(state)))
    else None
  }
}
