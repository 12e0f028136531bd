/**
 * `extraer_datos_gsc` of app/gsc_fetcher.py: check the configuration, compute the
 * reporting window, query Search Console for (query, date) rows and map each response
 * row to a flat record with defaults.  Authentication and the `searchanalytics().query`
 * call are one external function from the request body to the response.
 */
module GscFetcher {
  import opened Common

  /** `GSC_SERVICE_ACCOUNT_FILE` and `GSC_SITE_URL` as read from the environment. */
  datatype GscConfig = GscConfig(serviceAccountFile: Option<string>, siteUrl: Option<string>)

  /** `not SERVICE_ACCOUNT_FILE or not SITE_URL` is false. */
  predicate Configured(config: GscConfig) {
    Truthy(config.serviceAccountFile) && Truthy(config.siteUrl)
  }

  datatype DateWindow = DateWindow(start: Date, end: Date)

  predicate InWindow(w: DateWindow, d: Date) {
    w.start <= d <= w.end
  }

  /** The set of calendar days a window covers. */
  function DaysOf(w: DateWindow): (r: set<Date>)
    ensures forall d :: d in r <==> InWindow(w, d)
    decreases w.end - w.start
  {
    if w.end < w.start then {} else {w.start} + DaysOf(DateWindow(w.start + 1, w.end))
  }

  /** `start = today - timedelta(days = days - 1)`, `end = today` (lines 30-32): the
      window ends today and holds exactly the dates later than `today - days`. */
  function ReportWindow(today: Date, days: int): (w: DateWindow)
    ensures w.end == today
    ensures forall d :: InWindow(w, d) <==> today - days < d <= today
  {
    DateWindow(today - (days - 1), today)
  }

  /** For every positive `days` the window covers exactly `days` calendar days. */
  lemma {:induction false} WindowCoversDays(today: Date, days: int)
    requires days >= 1
    ensures |DaysOf(ReportWindow(today, days))| == days
    decreases days
  {
    if days > 1 {
      WindowCoversDays(today, days - 1);
      var w, w' := ReportWindow(today, days), ReportWindow(today, days - 1);
      assert DaysOf(w) == DaysOf(w') + {w.start};
    } else {
      assert DaysOf(ReportWindow(today, 1)) == {today};
    }
  }

  /** The request body of lines 35-40. */
  datatype QueryBody = QueryBody(startDate: Date, endDate: Date, dimensions: seq<string>, rowLimit: nat)

  function RequestBody(today: Date, days: int): (b: QueryBody)
    ensures b.dimensions == ["query", "date"] && b.rowLimit == 25000
    ensures b.endDate == today && b.endDate - b.startDate + 1 == days
  {
    var w := ReportWindow(today, days);
    QueryBody(w.start, w.end, ["query", "date"], 25000)
  }

  /** One element of the response's `rows`; every key may be absent. */
  datatype ApiRow = ApiRow(
    keys: Option<seq<string>>,
    clicks: Option<int>,
    impressions: Option<int>,
    ctr: Option<real>,
    position: Option<real>)

  /** The outcome of authenticating and querying: an exception, or the response
      object, whose `rows` key may be absent. */
  datatype ApiOutcome = ApiFailed(message: string) | ApiResponse(rows: Option<seq<ApiRow>>)

  /** One dictionary of the returned list.  `intent` and `format` are the optional keys
      that app/save_data.py reads with `row.get`; this function never sets them. */
  datatype GscRow = GscRow(
    keyword: string,
    date: string,
    clicks: int,
    impressions: int,
    ctr: real,
    position: real,
    intent: Option<Json>,
    format: Option<Json>)

  datatype FetchError =
    | MissingConfig                      // the ValueError of lines 18-20
    | ApiError(message: string)          // authentication or query failure
    | MalformedKeys(index: nat)          // `query, row_date = keys` with len(keys) != 2

  /**
   * Lines 48-55 for one row: `keys` (default `["", ""]`) must hold exactly two values,
   * the query and the date in the order of the requested dimensions; a missing metric
   * defaults to 0 or 0.0.
   */
  function ToGscRow(row: ApiRow): (r: Option<GscRow>)
    ensures r.Some? <==> |row.keys.GetOr(["", ""])| == 2
    ensures row.keys.None? ==> r.Some? && r.value.keyword == "" && r.value.date == ""
    ensures r.Some? && row.keys.Some? ==> r.value.keyword == row.keys.value[0] && r.value.date == row.keys.value[1]
    ensures r.Some? ==> r.value.clicks == row.clicks.GetOr(0) && r.value.impressions == row.impressions.GetOr(0)
    ensures r.Some? ==> r.value.ctr == row.ctr.GetOr(0.0) && r.value.position == row.position.GetOr(0.0)
    ensures r.Some? ==> r.value.intent.None? && r.value.format.None?
  {
    var keys := row.keys.GetOr(["", ""]);
    if |keys| == 2 then
      Some(GscRow(keys[0], keys[1], row.clicks.GetOr(0), row.impressions.GetOr(0),
                  row.ctr.GetOr(0.0), row.position.GetOr(0.0), None, None))
    else None
  }

  /** `rows` mapped one to one and in order, or the first row whose keys cannot be unpacked. */
  ghost predicate FormattedFrom(rows: seq<ApiRow>, r: Result<seq<GscRow>, FetchError>) {
    match r
    case Ok(data) =>
      |data| == |rows| && forall i :: 0 <= i < |rows| ==> ToGscRow(rows[i]) == Some(data[i])
    case Err(e) =>
      && e.MalformedKeys?
      && e.index < |rows|
      && ToGscRow(rows[e.index]).None?
      && forall i :: 0 <= i < e.index ==> ToGscRow(rows[i]).Some?
  }

  /** The loop of lines 46-56. */
  method FormatRows(rows: seq<ApiRow>) returns (r: Result<seq<GscRow>, FetchError>)
    ensures FormattedFrom(rows, r)
  {
    var data: seq<GscRow> := [];
    var i := 0;
    while i < |rows|
      invariant i <= |rows| && |data| == i
      invariant forall k :: 0 <= k < i ==> ToGscRow(rows[k]) == Some(data[k])
    {
      var row := ToGscRow(rows[i]);
      if row.None? {
        return Err(MalformedKeys(i));
      }
      data := data + [row.value];
      i := i + 1;
    }
    r := Ok(data);
  }

  /** Everything `extraer_datos_gsc(days)` can produce for this configuration, day and API. */
  ghost predicate FetchOutcome(config: GscConfig, today: Date, days: int,
                               api: QueryBody -> ApiOutcome, r: Result<seq<GscRow>, FetchError>) {
    if !Configured(config) then r == Err(MissingConfig)
    else match api(RequestBody(today, days))
      case ApiFailed(message) => r == Err(ApiError(message))
      case ApiResponse(rows) => FormattedFrom(rows.GetOr([]), r)
  }

  /**
   * `extraer_datos_gsc` (lines 13-58): a missing or empty setting fails before the API
   * is consulted; otherwise the API is asked for exactly the window of `days` days
   * ending `today`, and a response without `rows` gives the empty list.
   */
  method ExtraerDatosGsc(config: GscConfig, today: Date, days: int, api: QueryBody -> ApiOutcome)
      returns (r: Result<seq<GscRow>, FetchError>)
    ensures FetchOutcome(config, today, days, api, r)
    ensures !Configured(config) ==> r == Err(MissingConfig)
    ensures Configured(config) && api(RequestBody(today, days)) == ApiResponse(None) ==> r == Ok([])
  {
    if !Configured(config) {
      return Err(MissingConfig);
    }
    var body := RequestBody(today, days);
    var response := api(body);
    match response
    case ApiFailed(message) =>
      r := Err(ApiError(message));
    case ApiResponse(rows) =>
      r := FormatRows(rows.GetOr([]));
  }
}
