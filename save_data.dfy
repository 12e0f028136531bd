/**
 * `save_keywords` of app/save_data.py: fetch the Search Console rows and merge them into
 * the history, skipping every row whose (keyword, date) pair is already stored and
 * counting what was inserted and skipped; all inserts are committed together after the
 * loop.
 *
 * Dates: a row carries its date as text; the lookup and the new record both use the
 * date parsed from that text (`parseDate`, for `strptime(..., "%Y-%m-%d")`), and a text
 * that does not parse raises before anything is committed.
 * Session: a lookup sees the rows added earlier in the same run (the session flushes
 * pending inserts before each query), so a (keyword, date) pair repeated inside one
 * batch is inserted once.
 */
module SaveData {
  import opened Common
  import opened History
  import opened GscFetcher

  /** The state of the ingestion loop: the table as the session sees it, the next
      surrogate id, and the two counters. */
  datatype IngestState = IngestState(records: seq<Record>, nextId: nat, inserted: nat, skipped: nat)

  datatype IngestCounts = IngestCounts(inserted: nat, skipped: nat)

  /** The record that lines 33-42 build for `row` observed on `date`: labels come from
      the row when it has them and are "" otherwise. */
  function NewRecord(row: GscRow, date: Date, id: nat, now: Timestamp): (r: Record)
    ensures r.id == id && r.keyword == row.keyword && r.gscDate == date && r.createdAt == now
    ensures r.clicks == row.clicks && r.impressions == row.impressions
    ensures r.ctr == row.ctr && r.position == row.position
    ensures row.intent.Some? ==> r.intent == row.intent.value
    ensures row.intent.None? ==> r.intent == JString("")
    ensures row.format.Some? ==> r.format == row.format.value
    ensures row.format.None? ==> r.format == JString("")
  {
    Record(id, row.keyword, row.intent.GetOr(JString("")), row.format.GetOr(JString("")),
           row.clicks, row.impressions, row.ctr, row.position, now, date)
  }

  /**
   * One iteration of lines 23-44; `Err(index)` is the ValueError of `strptime`.  The
   * row is counted exactly once, existing records are never changed, a stored pair
   * adds nothing, and afterwards the row's pair is stored.
   */
  function IngestRow(s: IngestState, row: GscRow, index: nat, parseDate: DateParser, now: Timestamp)
    : (r: Result<IngestState, nat>)
    ensures r.Err? <==> parseDate(row.date).None?
    ensures r.Err? ==> r.error == index
    ensures r.Ok? ==> r.value.inserted + r.value.skipped == s.inserted + s.skipped + 1
    ensures r.Ok? && Stored(s.records, row.keyword, parseDate(row.date).value) ==>
              r.value.inserted == s.inserted && r.value.skipped == s.skipped + 1
    ensures r.Ok? && !Stored(s.records, row.keyword, parseDate(row.date).value) ==>
              r.value.inserted == s.inserted + 1 && r.value.skipped == s.skipped
  {
    match parseDate(row.date)
    case None => Err(index)
    case Some(date) =>
      if Stored(s.records, row.keyword, date) then Ok(s.(skipped := s.skipped + 1))
      else Ok(IngestState(s.records + [NewRecord(row, date, s.nextId, now)], s.nextId + 1, s.inserted + 1, s.skipped))
  }

  /** A row that is taken keeps every earlier record, leaves its pair stored, and changes nothing if the pair was there. */
  lemma IngestRowExtends(s: IngestState, row: GscRow, index: nat, parseDate: DateParser, now: Timestamp)
    requires IngestRow(s, row, index, parseDate, now).Ok?
    ensures var r := IngestRow(s, row, index, parseDate, now).value;
      && |s.records| <= |r.records| && r.records[..|s.records|] == s.records
      && Stored(r.records, row.keyword, parseDate(row.date).value)
      && (Stored(s.records, row.keyword, parseDate(row.date).value) ==> r.records == s.records && r.nextId == s.nextId)
  {
    var date := parseDate(row.date).value;
    if !Stored(s.records, row.keyword, date) {
      var records := s.records + [NewRecord(row, date, s.nextId, now)];
      assert records[|s.records|].keyword == row.keyword && records[|s.records|].gscDate == date;
    }
  }

  /** The loop of lines 23-44 over `rows`, in order, starting from the committed table. */
  function Ingest(records: seq<Record>, nextId: nat, rows: seq<GscRow>, parseDate: DateParser, now: Timestamp)
    : (r: Result<IngestState, nat>)
    ensures r.Err? ==> r.error < |rows| && parseDate(rows[r.error].date).None?
    decreases |rows|
  {
    if rows == [] then Ok(IngestState(records, nextId, 0, 0))
    else
      var last := |rows| - 1;
      match Ingest(records, nextId, rows[..last], parseDate, now)
      case Err(i) => Err(i)
      case Ok(s) => IngestRow(s, rows[last], last, parseDate, now)
  }

  /** One more row whose pair is already stored: the row is only counted as skipped. */
  lemma {:induction false} IngestSkips(records: seq<Record>, nextId: nat, rows: seq<GscRow>, i: nat,
                                       parseDate: DateParser, now: Timestamp,
                                       pending: seq<Record>, id: nat, inserted: nat, skipped: nat, date: Date)
    requires i < |rows| && parseDate(rows[i].date) == Some(date)
    requires Ingest(records, nextId, rows[..i], parseDate, now) == Ok(IngestState(records + pending, id, inserted, skipped))
    requires Stored(records + pending, rows[i].keyword, date)
    ensures Ingest(records, nextId, rows[..i + 1], parseDate, now)
            == Ok(IngestState(records + pending, id, inserted, skipped + 1))
  {
    assert rows[..i + 1][..i] == rows[..i];
  }

  /** One more row whose pair is new: the row's record joins the session with the next id. */
  lemma {:induction false} IngestAppends(records: seq<Record>, nextId: nat, rows: seq<GscRow>, i: nat,
                                         parseDate: DateParser, now: Timestamp,
                                         pending: seq<Record>, id: nat, inserted: nat, skipped: nat, date: Date)
    requires i < |rows| && parseDate(rows[i].date) == Some(date)
    requires Ingest(records, nextId, rows[..i], parseDate, now) == Ok(IngestState(records + pending, id, inserted, skipped))
    requires !Stored(records + pending, rows[i].keyword, date)
    ensures Ingest(records, nextId, rows[..i + 1], parseDate, now)
            == Ok(IngestState(records + (pending + [NewRecord(rows[i], date, id, now)]), id + 1, inserted + 1, skipped))
  {
    assert rows[..i + 1][..i] == rows[..i];
    assert (records + pending) + [NewRecord(rows[i], date, id, now)] == records + (pending + [NewRecord(rows[i], date, id, now)]);
  }

  /** Every parsed row: the lookup key of row `j`. */
  ghost predicate AllDatesParse(rows: seq<GscRow>, parseDate: DateParser) {
    forall j :: 0 <= j < |rows| ==> parseDate(rows[j].date).Some?
  }

  /** `new` is the record built from some row of `rows` with the next ids in sequence. */
  ghost predicate FromSomeRow(rec: Record, rows: seq<GscRow>, parseDate: DateParser, now: Timestamp) {
    exists j :: 0 <= j < |rows| && parseDate(rows[j].date) == Some(rec.gscDate)
                && rec == NewRecord(rows[j], rec.gscDate, rec.id, now)
  }

  /**
   * Count conservation and no upsert: every row is counted exactly once, the table only
   * grows by the inserted records, existing records (metrics and labels) stay exactly
   * as they were, and one id is consumed per insert.
   */
  lemma {:induction false} IngestConservesCounts(records: seq<Record>, nextId: nat, rows: seq<GscRow>,
                                        parseDate: DateParser, now: Timestamp)
    requires Ingest(records, nextId, rows, parseDate, now).Ok?
    ensures var s := Ingest(records, nextId, rows, parseDate, now).value;
      && s.inserted + s.skipped == |rows|
      && |s.records| == |records| + s.inserted
      && s.records[..|records|] == records
      && s.nextId == nextId + s.inserted
    decreases |rows|
  {
    if rows != [] {
      IngestConservesCounts(records, nextId, rows[..|rows| - 1], parseDate, now);
    }
  }

  /** The ingestion fails exactly when some date does not parse, and then at the first. */
  lemma {:induction false} IngestFailsAtFirstBadDate(records: seq<Record>, nextId: nat, rows: seq<GscRow>,
                                                     parseDate: DateParser, now: Timestamp)
    ensures Ingest(records, nextId, rows, parseDate, now).Ok? <==> AllDatesParse(rows, parseDate)
    ensures Ingest(records, nextId, rows, parseDate, now).Err? ==>
      var i := Ingest(records, nextId, rows, parseDate, now).error;
      i < |rows| && parseDate(rows[i].date).None? && forall j :: 0 <= j < i ==> parseDate(rows[j].date).Some?
    decreases |rows|
  {
    if rows != [] {
      var last := |rows| - 1;
      var prefix := rows[..last];
      IngestFailsAtFirstBadDate(records, nextId, prefix, parseDate, now);
      assert forall j :: 0 <= j < last ==> prefix[j] == rows[j];
    }
  }

  /**
   * Nothing is invented: each inserted record is the record of one of the rows, carrying
   * that row's keyword, metrics, parsed date and labels (or ""), with a fresh id.
   */
  lemma {:induction false} IngestInsertsOnlyRows(records: seq<Record>, nextId: nat, rows: seq<GscRow>,
                                                 parseDate: DateParser, now: Timestamp)
    requires Ingest(records, nextId, rows, parseDate, now).Ok?
    ensures var s := Ingest(records, nextId, rows, parseDate, now).value;
      forall k :: |records| <= k < |s.records| ==>
        s.records[k].id == nextId + (k - |records|) && FromSomeRow(s.records[k], rows, parseDate, now)
    decreases |rows|
  {
    if rows != [] {
      var last := |rows| - 1;
      var prefix := rows[..last];
      IngestInsertsOnlyRows(records, nextId, prefix, parseDate, now);
      IngestConservesCounts(records, nextId, prefix, parseDate, now);
      var p := Ingest(records, nextId, prefix, parseDate, now).value;
      var s := Ingest(records, nextId, rows, parseDate, now).value;
      forall k | |records| <= k < |s.records|
        ensures s.records[k].id == nextId + (k - |records|) && FromSomeRow(s.records[k], rows, parseDate, now)
      {
        if k < |p.records| {
          assert s.records[k] == p.records[k];
          var j :| 0 <= j < |prefix| && parseDate(prefix[j].date) == Some(p.records[k].gscDate)
                   && p.records[k] == NewRecord(prefix[j], p.records[k].gscDate, p.records[k].id, now);
          assert prefix[j] == rows[j];
        } else {
          assert parseDate(rows[last].date) == Some(s.records[k].gscDate);
        }
      }
    }
  }

  /** Completeness: afterwards the (keyword, date) pair of every row is stored. */
  lemma {:induction false} IngestStoresEveryRow(records: seq<Record>, nextId: nat, rows: seq<GscRow>,
                                                parseDate: DateParser, now: Timestamp)
    requires Ingest(records, nextId, rows, parseDate, now).Ok?
    ensures AllDatesParse(rows, parseDate)
    ensures var s := Ingest(records, nextId, rows, parseDate, now).value;
      forall j :: 0 <= j < |rows| ==> Stored(s.records, rows[j].keyword, parseDate(rows[j].date).value)
    decreases |rows|
  {
    IngestFailsAtFirstBadDate(records, nextId, rows, parseDate, now);
    if rows != [] {
      var last := |rows| - 1;
      var prefix := rows[..last];
      IngestStoresEveryRow(records, nextId, prefix, parseDate, now);
      var p := Ingest(records, nextId, prefix, parseDate, now).value;
      var s := Ingest(records, nextId, rows, parseDate, now).value;
      assert s.records == p.records || s.records == p.records + [s.records[|s.records| - 1]];
      forall j | 0 <= j < |rows| ensures Stored(s.records, rows[j].keyword, parseDate(rows[j].date).value) {
        var date := parseDate(rows[j].date).value;
        if j < last {
          assert prefix[j] == rows[j];
          if s.records != p.records {
            StoredAppend(p.records, [s.records[|s.records| - 1]], rows[j].keyword, date);
          }
        } else if !Stored(p.records, rows[last].keyword, date) {
          assert s.records[|p.records|].keyword == rows[last].keyword;
        }
      }
    }
  }

  /** The uniqueness of (keyword, gsc_date) is preserved. */
  lemma {:induction false} IngestKeepsKeysUnique(records: seq<Record>, nextId: nat, rows: seq<GscRow>,
                                                 parseDate: DateParser, now: Timestamp)
    requires UniqueKeys(records)
    requires Ingest(records, nextId, rows, parseDate, now).Ok?
    ensures UniqueKeys(Ingest(records, nextId, rows, parseDate, now).value.records)
    decreases |rows|
  {
    if rows != [] {
      var prefix := rows[..|rows| - 1];
      IngestKeepsKeysUnique(records, nextId, prefix, parseDate, now);
      var p := Ingest(records, nextId, prefix, parseDate, now).value;
      var s := Ingest(records, nextId, rows, parseDate, now).value;
      if s.records != p.records {
        var n := |p.records|;
        forall i | 0 <= i < n
          ensures s.records[i].keyword != s.records[n].keyword || s.records[i].gscDate != s.records[n].gscDate
        {
          assert s.records[i] == p.records[i];
        }
      }
    }
  }

  /** Surrogate ids stay distinct and below the counter. */
  lemma {:induction false} IngestKeepsIdsFresh(records: seq<Record>, nextId: nat, rows: seq<GscRow>,
                                               parseDate: DateParser, now: Timestamp)
    requires IdsFresh(records, nextId)
    requires Ingest(records, nextId, rows, parseDate, now).Ok?
    ensures var s := Ingest(records, nextId, rows, parseDate, now).value;
      IdsFresh(s.records, s.nextId)
    decreases |rows|
  {
    if rows != [] {
      var prefix := rows[..|rows| - 1];
      IngestKeepsIdsFresh(records, nextId, prefix, parseDate, now);
      var p := Ingest(records, nextId, prefix, parseDate, now).value;
      var s := Ingest(records, nextId, rows, parseDate, now).value;
      if s.records != p.records {
        assert forall i :: 0 <= i < |p.records| ==> s.records[i] == p.records[i];
      }
    }
  }

  /** Rows whose pairs are all stored already are all skipped and change nothing. */
  lemma {:induction false} IngestAllStored(records: seq<Record>, nextId: nat, rows: seq<GscRow>,
                                           parseDate: DateParser, now: Timestamp)
    requires AllDatesParse(rows, parseDate)
    requires forall j :: 0 <= j < |rows| ==> Stored(records, rows[j].keyword, parseDate(rows[j].date).value)
    ensures Ingest(records, nextId, rows, parseDate, now) == Ok(IngestState(records, nextId, 0, |rows|))
    decreases |rows|
  {
    if rows != [] {
      var prefix := rows[..|rows| - 1];
      assert forall j :: 0 <= j < |prefix| ==> prefix[j] == rows[j];
      IngestAllStored(records, nextId, prefix, parseDate, now);
    }
  }

  /** Idempotence: running the same rows again inserts nothing and skips every row. */
  lemma {:induction false} IngestIdempotent(records: seq<Record>, nextId: nat, rows: seq<GscRow>,
                                            parseDate: DateParser, now: Timestamp, later: Timestamp)
    requires Ingest(records, nextId, rows, parseDate, now).Ok?
    ensures var s := Ingest(records, nextId, rows, parseDate, now).value;
      Ingest(s.records, s.nextId, rows, parseDate, later) == Ok(IngestState(s.records, s.nextId, 0, |rows|))
  {
    var s := Ingest(records, nextId, rows, parseDate, now).value;
    IngestStoresEveryRow(records, nextId, rows, parseDate, now);
    IngestAllStored(s.records, s.nextId, rows, parseDate, later);
  }

  /** Pairwise distinct (keyword, date) pairs among the rows. */
  ghost predicate DistinctRowKeys(rows: seq<GscRow>, parseDate: DateParser) {
    forall i, j :: 0 <= i < j < |rows| ==>
      rows[i].keyword != rows[j].keyword || parseDate(rows[i].date) != parseDate(rows[j].date)
  }

  /** A pair that is not stored and that no row carries is still not stored afterwards. */
  lemma {:induction false} IngestKeepsPairAbsent(records: seq<Record>, nextId: nat, rows: seq<GscRow>,
                                                 parseDate: DateParser, now: Timestamp, keyword: string, date: Date)
    requires Ingest(records, nextId, rows, parseDate, now).Ok?
    requires !Stored(records, keyword, date)
    requires forall j :: 0 <= j < |rows| ==> rows[j].keyword != keyword || parseDate(rows[j].date) != Some(date)
    ensures !Stored(Ingest(records, nextId, rows, parseDate, now).value.records, keyword, date)
  {
    IngestConservesCounts(records, nextId, rows, parseDate, now);
    IngestInsertsOnlyRows(records, nextId, rows, parseDate, now);
  }

  /** First run: rows with distinct pairs, none of them stored, are all inserted. */
  lemma {:induction false} IngestFresh(records: seq<Record>, nextId: nat, rows: seq<GscRow>,
                                       parseDate: DateParser, now: Timestamp)
    requires AllDatesParse(rows, parseDate)
    requires DistinctRowKeys(rows, parseDate)
    requires forall j :: 0 <= j < |rows| ==> !Stored(records, rows[j].keyword, parseDate(rows[j].date).value)
    ensures Ingest(records, nextId, rows, parseDate, now).Ok?
    ensures Ingest(records, nextId, rows, parseDate, now).value.inserted == |rows|
    ensures Ingest(records, nextId, rows, parseDate, now).value.skipped == 0
    decreases |rows|
  {
    if rows != [] {
      var last := |rows| - 1;
      var prefix := rows[..last];
      assert forall j :: 0 <= j < |prefix| ==> prefix[j] == rows[j];
      IngestFresh(records, nextId, prefix, parseDate, now);
      var row := rows[last];
      var date := parseDate(row.date).value;
      assert forall j :: 0 <= j < |prefix| ==>
        prefix[j].keyword != row.keyword || parseDate(prefix[j].date) != Some(date);
      IngestKeepsPairAbsent(records, nextId, prefix, parseDate, now, row.keyword, date);
    }
  }

  /**
   * Lines 19-47 against the history database.  Nothing becomes visible before the loop
   * ends: the new records collect in the session (`pending`) and are committed in one
   * step; a date that does not parse aborts the run with nothing committed.
   */
  method IngestRows(db: HistoryDb, rows: seq<GscRow>, parseDate: DateParser, now: Timestamp)
      returns (r: Result<IngestCounts, nat>)
    requires db.Valid()
    modifies db
    ensures db.Valid()
    ensures match Ingest(old(db.records), old(db.nextId), rows, parseDate, now)
      case Err(i) => r == Err(i) && db.records == old(db.records) && db.nextId == old(db.nextId)
      case Ok(s) => r == Ok(IngestCounts(s.inserted, s.skipped)) && db.records == s.records && db.nextId == s.nextId
  {
    var committed, firstId := db.records, db.nextId;
    var pending: seq<Record> := [];
    var nextId := firstId;
    var inserted, skipped := 0, 0;
    var i := 0;
    assert rows[..0] == [] && committed + pending == committed;
    while i < |rows|
      invariant i <= |rows|
      invariant db.records == committed && db.nextId == firstId
      invariant Ingest(committed, firstId, rows[..i], parseDate, now)
                == Ok(IngestState(committed + pending, nextId, inserted, skipped))
    {
      var row := rows[i];
      match parseDate(row.date)
      case None =>
        assert rows[..i + 1][..i] == rows[..i];
        IngestErrorSticks(committed, firstId, rows, i + 1, parseDate, now);
        return Err(i);
      case Some(date) =>
        if Stored(committed + pending, row.keyword, date) {
          IngestSkips(committed, firstId, rows, i, parseDate, now, pending, nextId, inserted, skipped, date);
          skipped := skipped + 1;
        } else {
          IngestAppends(committed, firstId, rows, i, parseDate, now, pending, nextId, inserted, skipped, date);
          pending := pending + [NewRecord(row, date, nextId, now)];
          nextId := nextId + 1;
          inserted := inserted + 1;
        }
      i := i + 1;
    }
    assert rows[..|rows|] == rows;
    IngestKeepsIdsFresh(committed, firstId, rows, parseDate, now);
    db.records := committed + pending;
    db.nextId := nextId;
    r := Ok(IngestCounts(inserted, skipped));
  }

  /** A failure on a prefix is the failure of the whole run. */
  lemma {:induction false} IngestErrorSticks(records: seq<Record>, nextId: nat, rows: seq<GscRow>, n: nat,
                                             parseDate: DateParser, now: Timestamp)
    requires n <= |rows|
    requires Ingest(records, nextId, rows[..n], parseDate, now).Err?
    ensures Ingest(records, nextId, rows, parseDate, now) == Ingest(records, nextId, rows[..n], parseDate, now)
    decreases |rows| - n
  {
    if n < |rows| {
      assert rows[..n + 1][..n] == rows[..n];
      IngestErrorSticks(records, nextId, rows, n + 1, parseDate, now);
    } else {
      assert rows[..n] == rows;
    }
  }

  datatype SaveKeywordsError = FetchFailed(error: FetchError) | BadDate(index: nat)

  /**
   * `save_keywords(days)` (lines 17-50): fetch the last `days` days, then ingest.
   * A failed fetch raises before the database is touched.
   */
  method SaveKeywords(db: HistoryDb, days: int, config: GscConfig, today: Date, api: QueryBody -> ApiOutcome,
                      parseDate: DateParser, now: Timestamp)
      returns (r: Result<IngestCounts, SaveKeywordsError>, ghost fetched: Result<seq<GscRow>, FetchError>)
    requires db.Valid()
    modifies db
    ensures db.Valid()
    ensures FetchOutcome(config, today, days, api, fetched)
    ensures fetched.Err? ==> r == Err(FetchFailed(fetched.error)) && unchanged(db)
    ensures fetched.Ok? ==> match Ingest(old(db.records), old(db.nextId), fetched.value, parseDate, now)
      case Err(i) => r == Err(BadDate(i)) && db.records == old(db.records) && db.nextId == old(db.nextId)
      case Ok(s) => r == Ok(IngestCounts(s.inserted, s.skipped)) && db.records == s.records && db.nextId == s.nextId
  {
    var data := ExtraerDatosGsc(config, today, days, api);
    fetched := data;
    match data
    case Err(e) =>
      r := Err(FetchFailed(e));
    case Ok(rows) =>
      var counts := IngestRows(db, rows, parseDate, now);
      match counts
      case Ok(c) =>
        r := Ok(c);
      case Err(i) =>
        r := Err(BadDate(i));
  }
}
