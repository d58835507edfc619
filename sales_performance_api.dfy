/**
 * The sales-report read hook: the optional query parameters, the default
 * period, the guard, the cache key and the error it raises.
 */
module SalesPerformanceApi {
  import opened Wrappers
  import opened UrlParams

  datatype Period = Daily | Weekly | Monthly

  function PeriodName(p: Period): string
  {
    match p
    case Daily => "daily"
    case Weekly => "weekly"
    case Monthly => "monthly"
  }

  /** A date already rendered by `toISOString`. */
  type IsoDate = string

  /** The hook's options after the `period = 'daily'` default. */
  function PeriodOrDefault(period: Option<Period>): Period
  {
    match period
    case Some(p) => p
    case None => Daily
  }

  /** The parameters, in order; the start and end dates only when given. */
  function SalesParamsFor(startDate: Option<IsoDate>, endDate: Option<IsoDate>, period: Option<Period>): seq<Entry>
  {
    (if startDate.Some? then [("startDate", startDate.value)] else [])
    + (if endDate.Some? then [("endDate", endDate.value)] else [])
    + [("period", PeriodName(PeriodOrDefault(period)))]
  }

  /** `getSalesPerformanceRequest`: `append` under three guards on a fresh `URLSearchParams`. */
  method SalesParams(startDate: Option<IsoDate>, endDate: Option<IsoDate>, period: Option<Period>) returns (entries: seq<Entry>)
    ensures entries == SalesParamsFor(startDate, endDate, period)
  {
    var params := new SearchParams();
    if startDate.Some? {
      params.Append("startDate", startDate.value);
    }
    if endDate.Some? {
      params.Append("endDate", endDate.value);
    }
    var p := PeriodOrDefault(period);
    params.Append("period", PeriodName(p));
    entries := params.entries;
  }

  /**
   * Each date is sent exactly when given and then with its value; the period is
   * always sent, "daily" when none was given; the order is start, end, period.
   */
  lemma SalesParamsMeaning(startDate: Option<IsoDate>, endDate: Option<IsoDate>, period: Option<Period>)
    ensures var e := SalesParamsFor(startDate, endDate, period);
      && Get(e, "startDate") == startDate
      && Get(e, "endDate") == endDate
      && Get(e, "period") == Some(PeriodName(PeriodOrDefault(period)))
      && (period.None? ==> Get(e, "period") == Some("daily"))
      && e[|e| - 1].0 == "period"
      && (startDate.Some? ==> e[0].0 == "startDate")
      && |e| == 1 + (if startDate.Some? then 1 else 0) + (if endDate.Some? then 1 else 0)
  {
    var e := SalesParamsFor(startDate, endDate, period);
    var pe := ("period", PeriodName(PeriodOrDefault(period)));
    if startDate.Some? && endDate.Some? {
      assert e[1..] == [("endDate", endDate.value), pe];
      assert e[1..][1..] == [pe];
      GetSkip(e, "period");
      GetSkip(e[1..], "period");
    } else if startDate.Some? {
      assert e[1..] == [pe];
    } else if endDate.Some? {
      assert e[1..] == [pe];
    }
  }

  /** `enabled: !!restaurantId`. */
  predicate Enabled(restaurantId: string)
  {
    restaurantId != ""
  }

  function ReportPath(restaurantId: string): string
  {
    "/api/my/restaurant/" + restaurantId + "/reports/sales"
  }

  /** `['salesPerformance', restaurantId, startDate, endDate, period]`. */
  datatype SalesKey = SalesPerformance(restaurantId: string, startDate: Option<IsoDate>, endDate: Option<IsoDate>, period: Period)

  function QueryKey(restaurantId: string, startDate: Option<IsoDate>, endDate: Option<IsoDate>, period: Option<Period>): SalesKey
  {
    SalesPerformance(restaurantId, startDate, endDate, PeriodOrDefault(period))
  }

  /** Changing any of the four inputs gives another cache entry. */
  lemma QueryKeyDistinguishes(r1: string, s1: Option<IsoDate>, e1: Option<IsoDate>, p1: Period,
                              r2: string, s2: Option<IsoDate>, e2: Option<IsoDate>, p2: Period)
    ensures QueryKey(r1, s1, e1, Some(p1)) == QueryKey(r2, s2, e2, Some(p2)) <==> r1 == r2 && s1 == s2 && e1 == e2 && p1 == p2
  {
  }

  /** The query does not refetch when the window regains focus. */
  const RefetchOnWindowFocus: bool := false

  const FailedToFetch: string := "Failed to fetch sales performance data"

  datatype Response<T> = Received(body: T) | Failed(reason: string)

  /** Any failure is re-raised with one fixed message; success returns the body. */
  function ReportResult<T>(r: Response<T>): (res: Result<T, string>)
    ensures res.Ok? <==> r.Received?
    ensures res.Ok? ==> res.value == r.body
    ensures res.Err? ==> res.error == FailedToFetch
  {
    match r
    case Received(body) => Ok(body)
    case Failed(_) => Err(FailedToFetch)
  }

  /** The request issued: none for an empty restaurant id. */
  function SalesRequest(restaurantId: string, startDate: Option<IsoDate>, endDate: Option<IsoDate>, period: Option<Period>)
    : (r: Option<(string, seq<Entry>)>)
    ensures r.Some? <==> restaurantId != ""
    ensures r.Some? ==> Get(r.value.1, "period").Some?
  {
    if Enabled(restaurantId) then
      SalesParamsMeaning(startDate, endDate, period);
      Some((ReportPath(restaurantId), SalesParamsFor(startDate, endDate, period)))
    else None
  }
}
