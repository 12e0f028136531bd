/**
 * The FastAPI application of app/main.py: its classification adapter, the batch
 * `/clasificar` endpoint, the `/extraer-datos` envelope, the unconditional
 * `/save_history` insert, and the two queries over the history table (`/history` and
 * `/history/keyword`).  The database session is a `HistoryDb`; each chat-completion call
 * is represented by its outcome, `json.loads` and `fromisoformat` by parameters.
 */
module MainApp {
  import opened Common
  import opened Classification
  import opened History
  import opened GscFetcher

  /**
   * `classify_keyword_with_ai` (lines 98-119): never raises; every failure of the
   * call or of the JSON parse yields `{"intent": "unknown", "recommended_format": "other"}`,
   * and otherwise the parsed reply is returned unchecked.
   */
  function ClassifyKeywordWithAi(outcome: CallOutcome, parse: JsonParser): (r: Json)
    ensures r == EnglishFallback || (outcome.Completed? && parse(outcome.content) == Some(r))
    ensures outcome.CallFailed? ==> r == EnglishFallback
    ensures outcome.Completed? && parse(outcome.content).None? ==> r == EnglishFallback
    ensures outcome.Completed? && parse(outcome.content).Some? ==> r == parse(outcome.content).value
  {
    Classify(outcome, parse, EnglishFallback)
  }

  /** The English fallback carries both labels, so a failed call never breaks a caller. */
  lemma EnglishFallbackHasLabels(outcome: CallOutcome, parse: JsonParser)
    requires outcome.CallFailed?
    ensures HasLabels(ClassifyKeywordWithAi(outcome, parse))
    ensures Get(ClassifyKeywordWithAi(outcome, parse), "intent") == Some(JString("unknown"))
    ensures Get(ClassifyKeywordWithAi(outcome, parse), "recommended_format") == Some(JString("other"))
  {
  }

  /**
   * `POST /clasificar` (lines 124-135): one call per keyword, in order, and one
   * response element per keyword; a reply lacking a label key fails the request.
   */
  method ClasificarKeywords(queries: seq<string>, replies: seq<CallOutcome>, parse: JsonParser)
      returns (result: Result<seq<LabelledQuery>, nat>, calls: nat, ghost prompted: seq<string>)
    requires |replies| == |queries|
    ensures ClassifiedAll(queries, replies, parse, EnglishFallback, result, calls)
    ensures calls <= |queries| && prompted == queries[..calls]
    ensures queries == [] ==> result == Ok([]) && calls == 0
  {
    result, calls, prompted := ClassifyAll(queries, replies, parse, EnglishFallback);
  }

  /** The JSON body of `GET /extraer-datos`. */
  datatype ExtractionResponse =
    | ExtractionSuccess(rows: nat, data: seq<GscRow>)   // {"status": "success", "rows": ..., "data": ...}
    | ExtractionError(error: FetchError)                // {"status": "error", "message": str(e)}

  /**
   * `extraer_datos` (lines 138-147): `days` is validated to 1..90 by the framework
   * before the handler runs; any exception of the extraction becomes an error body,
   * and a success body reports the number of rows it carries.
   */
  method ExtraerDatos(days: int, config: GscConfig, today: Date, api: QueryBody -> ApiOutcome)
      returns (resp: ExtractionResponse)
    requires 1 <= days <= 90
    ensures resp.ExtractionSuccess? ==> resp.rows == |resp.data| && FetchOutcome(config, today, days, api, Ok(resp.data))
    ensures resp.ExtractionError? ==> FetchOutcome(config, today, days, api, Err(resp.error))
    ensures !Configured(config) ==> resp == ExtractionError(MissingConfig)
  {
    var r := ExtraerDatosGsc(config, today, days, api);
    match r
    case Ok(data) => resp := ExtractionSuccess(|data|, data);
    case Err(e) => resp := ExtractionError(e);
  }

  /** One element of the `/save_history` body (lines 59-67).  Its `intent` and `format`
      are required by the schema but never read by the handler. */
  datatype KeywordInput = KeywordInput(
    keyword: string,
    intent: string,
    format: string,
    clicks: int,
    impressions: int,
    ctr: real,
    position: real,
    date: string)

  /** Why one item of `/save_history` raised: a KeyError on the classification or a
      ValueError from `datetime.fromisoformat`. */
  datatype SaveFailure = MissingLabel | BadDate

  datatype SaveHistoryError = SaveHistoryError(index: nat, failure: SaveFailure)

  /**
   * The record that lines 154-164 build for `item` from its classification `c`: the
   * labels come from the classification (read in this order, so a missing label is
   * reported before a bad date), the metrics and the keyword from the item.
   */
  function HistoryRecord(item: KeywordInput, c: Json, parseIso: DateParser, id: nat, now: Timestamp)
      : (r: Result<Record, SaveFailure>)
    ensures r.Ok? <==> HasLabels(c) && parseIso(item.date).Some?
    ensures !HasLabels(c) ==> r == Err(MissingLabel)
    ensures HasLabels(c) && parseIso(item.date).None? ==> r == Err(BadDate)
    ensures r.Ok? ==> r.value.id == id && r.value.keyword == item.keyword && r.value.createdAt == now
    ensures r.Ok? ==> Some(r.value.intent) == Get(c, "intent") && Some(r.value.format) == Get(c, "recommended_format")
    ensures r.Ok? ==> Some(r.value.gscDate) == parseIso(item.date)
    ensures r.Ok? ==> r.value.clicks == item.clicks && r.value.impressions == item.impressions
    ensures r.Ok? ==> r.value.ctr == item.ctr && r.value.position == item.position
  {
    if !HasLabels(c) then Err(MissingLabel)
    else match parseIso(item.date)
      case None => Err(BadDate)
      case Some(d) =>
        Ok(Record(id, item.keyword, Get(c, "intent").value, Get(c, "recommended_format").value,
                  item.clicks, item.impressions, item.ctr, item.position, now, d))
  }

  /** The labels submitted with an item have no effect on what is stored. */
  lemma SubmittedLabelsIgnored(item: KeywordInput, intent: string, format: string, c: Json,
                                 parseIso: DateParser, id: nat, now: Timestamp)
    ensures HistoryRecord(item.(intent := intent, format := format), c, parseIso, id, now)
            == HistoryRecord(item, c, parseIso, id, now)
  {
  }

  /** The keywords of `items`, in order. */
  function KeywordsOf(items: seq<KeywordInput>): (r: seq<string>)
    ensures |r| == |items| && forall k :: 0 <= k < |items| ==> r[k] == items[k].keyword
  {
    seq(|items|, k requires 0 <= k < |items| => items[k].keyword)
  }

  /**
   * `POST /save_history` (lines 150-168): every item is classified and inserted with no
   * existence check; everything is committed at the end, so an exception on any item
   * leaves the table as it was.  On success `saved` is the number of items and the new
   * records follow the old ones, in item order, with consecutive ids.  `prompted` lists
   * the keyword each classification call was made with: one per item up to the failing one.
   */
  method SaveHistory(db: HistoryDb, items: seq<KeywordInput>, replies: seq<CallOutcome>, parse: JsonParser,
                     parseIso: DateParser, now: Timestamp)
      returns (r: Result<nat, SaveHistoryError>, ghost prompted: seq<string>)
    requires db.Valid() && |replies| == |items|
    modifies db
    ensures db.Valid()
    ensures (if r.Ok? then |items| else r.error.index + 1) <= |items|
    ensures prompted == KeywordsOf(items)[..if r.Ok? then |items| else r.error.index + 1]
    ensures r.Ok? ==> r.value == |items| && db.nextId == old(db.nextId) + |items|
    ensures r.Ok? ==> |db.records| == |old(db.records)| + |items| && db.records[..|old(db.records)|] == old(db.records)
    ensures r.Ok? ==> forall i :: 0 <= i < |items| ==>
              HistoryRecord(items[i], ClassifyKeywordWithAi(replies[i], parse), parseIso, old(db.nextId) + i, now)
              == Ok(db.records[|old(db.records)| + i])
    ensures r.Err? ==> db.records == old(db.records) && db.nextId == old(db.nextId)
    ensures r.Err? ==>
              && r.error.index < |items|
              && HistoryRecord(items[r.error.index], ClassifyKeywordWithAi(replies[r.error.index], parse), parseIso,
                               old(db.nextId) + r.error.index, now) == Err(r.error.failure)
              && forall i :: 0 <= i < r.error.index ==>
                   HistoryRecord(items[i], ClassifyKeywordWithAi(replies[i], parse), parseIso, old(db.nextId) + i, now).Ok?
  {
    var pending: seq<Record> := [];
    prompted := [];
    var i := 0;
    while i < |items|
      invariant i <= |items| && |pending| == i
      invariant prompted == KeywordsOf(items)[..i]
      invariant db.records == old(db.records) && db.nextId == old(db.nextId)
      invariant forall k :: 0 <= k < i ==>
                  HistoryRecord(items[k], ClassifyKeywordWithAi(replies[k], parse), parseIso, db.nextId + k, now)
                  == Ok(pending[k])
      invariant IdsFresh(db.records + pending, db.nextId + i)
    {
      prompted := prompted + [items[i].keyword];
      assert prompted == KeywordsOf(items)[..i + 1];
      var classification := ClassifyKeywordWithAi(replies[i], parse);
      var record := HistoryRecord(items[i], classification, parseIso, db.nextId + i, now);
      if record.Err? {
        return Err(SaveHistoryError(i, record.error)), prompted;
      }
      pending := pending + [record.value];
      i := i + 1;
    }
    db.records := db.records + pending;
    db.nextId := db.nextId + |items|;
    r := Ok(|items|);
  }

  /** Saving an item whose (keyword, date) pair is already stored creates a duplicate
      pair: `/save_history` does not keep the pairs unique. */
  lemma {:induction false} SaveHistoryDoesNotDeduplicate(records: seq<Record>, item: KeywordInput, c: Json,
                                                         parseIso: DateParser, id: nat, now: Timestamp)
    requires HistoryRecord(item, c, parseIso, id, now).Ok?
    requires Stored(records, item.keyword, parseIso(item.date).value)
    ensures !UniqueKeys(records + [HistoryRecord(item, c, parseIso, id, now).value])
  {
    var s := records + [HistoryRecord(item, c, parseIso, id, now).value];
    var i :| 0 <= i < |records| && records[i].keyword == item.keyword && records[i].gscDate == parseIso(item.date).value;
    assert s[i] == records[i] && s[|records|].keyword == s[i].keyword && s[|records|].gscDate == s[i].gscDate;
  }

  /** The query parameters of `GET /history` (lines 174-177). */
  datatype HistoryFilters = HistoryFilters(
    startDate: Option<Date>,
    endDate: Option<Date>,
    intent: Option<string>,
    format: Option<string>)

  /** No filter is applied: every parameter is absent, and the labels may also be "". */
  predicate NoFilters(f: HistoryFilters) {
    f.startDate.None? && f.endDate.None? && !Truthy(f.intent) && !Truthy(f.format)
  }

  /** Lines 180-187: a date bound applies when given; a label filter applies when it is
      a non-empty string and then requires the stored label to be that string. */
  predicate Matches(f: HistoryFilters, r: Record) {
    && (f.startDate.Some? ==> r.gscDate >= f.startDate.value)
    && (f.endDate.Some? ==> r.gscDate <= f.endDate.value)
    && (Truthy(f.intent) ==> r.intent == JString(f.intent.value))
    && (Truthy(f.format) ==> r.format == JString(f.format.value))
  }

  function MatchesFilters(f: HistoryFilters): Record -> bool {
    (r: Record) => Matches(f, r)
  }

  /**
   * `read_history` (lines 171-188): exactly the records that pass every active filter,
   * each as often as it is stored, newest `gsc_date` first.
   */
  function ReadHistory(records: seq<Record>, f: HistoryFilters): (r: seq<Record>)
    ensures SortedByDate(r, true)
    ensures forall x :: multiset(r)[x] == if Matches(f, x) then multiset(records)[x] else 0
  {
    SortByDate(Where(records, MatchesFilters(f)), true)
  }

  /** Every listed record is stored and passes the filters. */
  lemma ReadHistorySound(records: seq<Record>, f: HistoryFilters, k: nat)
    requires k < |ReadHistory(records, f)|
    ensures ReadHistory(records, f)[k] in records && Matches(f, ReadHistory(records, f)[k])
  {
  }

  /** Every stored record that passes the filters is listed. */
  lemma ReadHistoryComplete(records: seq<Record>, f: HistoryFilters, k: nat)
    requires k < |records| && Matches(f, records[k])
    ensures records[k] in ReadHistory(records, f)
  {
  }

  /** Without filters (or with empty label filters) the whole table is listed. */
  lemma ReadHistoryUnfiltered(records: seq<Record>, f: HistoryFilters)
    requires NoFilters(f)
    ensures multiset(ReadHistory(records, f)) == multiset(records)
    ensures |ReadHistory(records, f)| == |records|
  {
  }

  /** A window whose start lies after its end lists nothing. */
  lemma ReadHistoryEmptyWindow(records: seq<Record>, f: HistoryFilters)
    requires f.startDate.Some? && f.endDate.Some? && f.startDate.value > f.endDate.value
    ensures ReadHistory(records, f) == []
  {
  }

  /** One element of the `/history/keyword` response (lines 200-205). */
  datatype TimePoint = TimePoint(gscDate: Date, clicks: int, ctr: real, position: real)

  /** The projection of lines 200-205: a record's date and three of its metrics. */
  function Point(r: Record): (p: TimePoint)
    ensures p.gscDate == r.gscDate && p.clicks == r.clicks && p.ctr == r.ctr && p.position == r.position
  {
    TimePoint(r.gscDate, r.clicks, r.ctr, r.position)
  }

  function KeywordIs(text: string): Record -> bool {
    (r: Record) => r.keyword == text
  }

  /** The points of `s`, in the order of `s` (the list comprehension of lines 199-207). */
  function Points(s: seq<Record>): (r: seq<TimePoint>)
    ensures |r| == |s| && forall i :: 0 <= i < |s| ==> r[i] == Point(s[i])
  {
    if s == [] then [] else [Point(s[0])] + Points(s[1..])
  }

  lemma {:induction false} PointsAppend(a: seq<Record>, b: seq<Record>)
    ensures Points(a + b) == Points(a) + Points(b)
  {
    var l, r := Points(a + b), Points(a) + Points(b);
    assert |l| == |r|;
    forall i | 0 <= i < |l| ensures l[i] == r[i] {
      if i < |a| { assert (a + b)[i] == a[i]; } else { assert (a + b)[i] == b[i - |a|]; }
    }
  }

  /** `b` without its element at `j`. */
  function Without(b: seq<Record>, j: nat): seq<Record>
    requires j < |b|
  {
    b[..j] + b[j + 1..]
  }

  /** Taking one record out of a sequence takes its point out of the projection. */
  lemma {:induction false} PointsRemove(b: seq<Record>, j: nat)
    requires j < |b|
    ensures multiset(b) == multiset{b[j]} + multiset(Without(b, j))
    ensures multiset(Points(b)) == multiset{Point(b[j])} + multiset(Points(Without(b, j)))
  {
    assert b == b[..j] + [b[j]] + b[j + 1..];
    PointsAppend(b[..j] + [b[j]], b[j + 1..]);
    PointsAppend(b[..j], [b[j]]);
    PointsAppend(b[..j], b[j + 1..]);
  }

  lemma {:induction false} Cancel(m: multiset<Record>, n: multiset<Record>, x: Record)
    requires multiset{x} + m == multiset{x} + n
    ensures m == n
  {
    forall y ensures m[y] == n[y] {
      assert (multiset{x} + m)[y] == (multiset{x} + n)[y];
    }
  }

  /** The first record of a non-empty sequence, split off together with its point. */
  lemma {:induction false} PointsCons(a: seq<Record>)
    requires a != []
    ensures multiset(a) == multiset{a[0]} + multiset(a[1..])
    ensures multiset(Points(a)) == multiset{Point(a[0])} + multiset(Points(a[1..]))
  {
    assert a == [a[0]] + a[1..];
    assert Points(a) == [Point(a[0])] + Points(a[1..]);
  }

  /** Projecting two arrangements of the same records gives the same points, each as
      often. */
  lemma {:induction false} PointsPermutation(a: seq<Record>, b: seq<Record>)
    requires multiset(a) == multiset(b)
    ensures multiset(Points(a)) == multiset(Points(b))
    decreases |a|
  {
    if a == [] {
      assert |b| == |multiset(b)| == 0;
    } else {
      PointsCons(a);
      assert a[0] in multiset(b);
      var j :| 0 <= j < |b| && b[j] == a[0];
      PointsRemove(b, j);
      Cancel(multiset(a[1..]), multiset(Without(b, j)), a[0]);
      PointsPermutation(a[1..], Without(b, j));
    }
  }

  /**
   * `get_keyword_timeseries` (lines 190-207): exactly the projections of the records
   * whose keyword equals `text`, each as often as such a record is stored, oldest
   * `gsc_date` first.
   */
  function GetKeywordTimeseries(records: seq<Record>, text: string): (r: seq<TimePoint>)
    ensures multiset(r) == multiset(Points(Where(records, KeywordIs(text))))
    ensures |r| == |Where(records, KeywordIs(text))|
    ensures forall i, j :: 0 <= i < j < |r| ==> r[i].gscDate <= r[j].gscDate
  {
    var matching := Where(records, KeywordIs(text));
    var sorted := SortByDate(matching, false);
    assert |sorted| == |multiset(sorted)|;
    PointsPermutation(sorted, matching);
    Points(sorted)
  }

  /** Every point comes from a stored record of that keyword. */
  lemma {:induction false} TimeseriesSound(records: seq<Record>, text: string, i: nat)
    requires i < |GetKeywordTimeseries(records, text)|
    ensures exists k :: 0 <= k < |records| && records[k].keyword == text
                        && GetKeywordTimeseries(records, text)[i] == Point(records[k])
  {
    var sorted := SortByDate(Where(records, KeywordIs(text)), false);
    var x := sorted[i];
    assert x in multiset(sorted);
    assert x in records;
    var k :| 0 <= k < |records| && records[k] == x;
  }

  /** Every stored record of that keyword gives a point. */
  lemma {:induction false} TimeseriesComplete(records: seq<Record>, text: string, k: nat)
    requires k < |records| && records[k].keyword == text
    ensures exists i :: 0 <= i < |GetKeywordTimeseries(records, text)|
                        && GetKeywordTimeseries(records, text)[i] == Point(records[k])
  {
    var sorted := SortByDate(Where(records, KeywordIs(text)), false);
    assert records[k] in multiset(records);
    assert multiset(sorted)[records[k]] == multiset(records)[records[k]];
    assert records[k] in sorted;
    var i :| 0 <= i < |sorted| && sorted[i] == records[k];
    assert GetKeywordTimeseries(records, text)[i] == Point(records[k]);
  }
}
