# seo-ai keyword-history pipeline, modelled in Dafny

This project models the keyword-history pipeline of the seo-ai application. Its parts:

- **Ingestion** (`save_keywords`): fetch (keyword, date) rows from Google Search
  Console and merge them into the `keyword_history` table. A row whose
  (keyword, date) pair is already stored is skipped; every other row is inserted.
  Both outcomes are counted.
- **Search Console fetcher** (`extraer_datos_gsc`): the configuration check, the
  inclusive date window, and the mapping of response rows to flat records with
  defaults.
- **Classification adapter**: one chat-completion call, parsed strictly as JSON,
  with a fixed fallback on any failure. app/main.py uses an English fallback;
  the API router and the labelling script use a Spanish one.
- **Endpoints** of app/main.py and api/intent_classifier_api.py:
  - `/clasificar`: batch classification;
  - `/extraer-datos`: the extraction envelope;
  - `/save_history`: insert without existence check;
  - `/history`: filtered, newest first;
  - `/history/keyword`: a time series, oldest first.
- **Labelling script** ai_labeler.py: labels the first 50 rows of a table in
  place.
- **Rule-based classifier** `predict_intent_and_format`: a priority chain of
  substring triggers for the intent, a second chain for the format, and a
  suggested title.

Files and modules:

| file | module | models |
|---|---|---|
| common.dfy | `Common` | `Option`, `Result`, dates as day numbers, JSON values |
| classification.dfy | `Classification` | the shared adapter and the `/clasificar` loop |
| history.dfy | `History` | the record, the `HistoryDb` store, the `WHERE` filter and the date sort |
| gsc_fetcher.dfy | `GscFetcher` | app/gsc_fetcher.py |
| save_data.dfy | `SaveData` | app/save_data.py |
| main.dfy | `MainApp` | app/main.py |
| predictor.dfy | `Predictor` | app/services/predictor.py |
| intent_classifier_api.dfy | `IntentClassifierApi` | api/intent_classifier_api.py |
| ai_labeler.dfy | `AiLabeler` | ai_labeler.py |

Modelling choices:

- **External behaviour is a parameter.**
  - A chat-completion call is its `CallOutcome`: a failure, or the reply text.
    The i-th reply answers the i-th call.
  - `json.loads` is a `JsonParser`. `strptime` and `fromisoformat` are a
    `DateParser`.
  - The Search Console query is a function from the request body to the
    response.
  - `date.today()` and `datetime.utcnow()` are plain inputs.
- **Exceptions become `Err` values.** An exception nothing catches becomes an
  `Err` result; so does the HTTP 400 of the router.
- **Dates are day numbers.** This makes the window arithmetic and the ordering
  integer arithmetic.
- **Mutable state.**
  - The table is the `HistoryDb` class. Its `records` sequence and id counter
    are replaced at the single commit.
  - The label columns of the labelling script are arrays written in place.

What the code does, and the model with it:

- New records take the labels their row carries, or "" when it carries none
  (app/save_data.py lines 40-41).
- The labelling script takes the first 50 rows of its CSV table, in row order
  (ai_labeler.py lines 29 and 56), and pauses 1.5 s after each (line 62).
- The fallback is `unknown`/`other` in app/main.py and `desconocido`/`otro` in
  api/intent_classifier_api.py and ai_labeler.py.
- A reply that parses but lacks a label key is returned as it is. Reading
  `result["intent"]` then raises in the caller.
- `/save_history` inserts every item without looking for an existing
  (keyword, date) pair.

Further choices where the code is silent or broken:

- **app/save_data.py lines 33-42 are mis-indented.** As written, the module does
  not import. The model follows the evident intent: build the record, add it,
  count it.
- **Dates in the lookup.** The lookup of line 26 compares `gsc_date` with the
  raw date string, while the insert parses it (line 39). The model compares
  parsed dates in both places.
- **Autoflush.** The session is taken to autoflush, which is SQLAlchemy's
  default. A pair that occurs twice in one batch is therefore inserted once and
  then skipped.
- **One Spanish adapter.** The `clasificar_keyword` of ai_labeler.py (lines
  32-53) has the same prompt, parse and fallback as the router's (lines 25-46
  of api/intent_classifier_api.py). The labelling loop therefore uses
  `IntentClassifierApi.ClasificarKeyword`, and `FailedCallIsDesconocido` holds
  for both.
- **`gsc_date`.** app/models.py lines 5-16 declare no `gsc_date` column, but
  both app/main.py and app/save_data.py rely on one. The record carries it.

## Model

| member | source | states |
|---|---|---|
| GscFetcher.Configured | app/gsc_fetcher.py:18 | the configuration is usable when both settings are present and non-empty |
| GscFetcher.ReportWindow | app/gsc_fetcher.py:30-32 | the window ends today and contains exactly the dates d with today - days < d <= today |
| GscFetcher.WindowCoversDays | app/gsc_fetcher.py:30-32 | for every days >= 1 the window covers exactly `days` calendar days, today included |
| GscFetcher.RequestBody | app/gsc_fetcher.py:35-40 | the body asks for dimensions ["query", "date"], at most 25000 rows, from start to today, spanning `days` days |
| GscFetcher.ToGscRow | app/gsc_fetcher.py:48-55 | a row maps iff its keys (default ["", ""]) hold exactly two values; keys[0] becomes the keyword and keys[1] the date, and missing metrics become 0 / 0.0 |
| GscFetcher.FormatRows | app/gsc_fetcher.py:46-56 | one output row per response row, in order, each the mapping of its row; otherwise the first row whose keys cannot be unpacked |
| GscFetcher.ExtraerDatosGsc | app/gsc_fetcher.py:13-58 | a missing or empty setting fails before the API is asked; otherwise exactly the window's body is sent, an API failure is reported, and a response without rows gives [] |
| SaveData.NewRecord | app/save_data.py:33-42 | the new record carries the row's keyword, metrics and parsed date, the given id and timestamp, and the row's labels when present, otherwise "" |
| History.Stored | app/save_data.py:23-26 | the existence lookup: some record has that keyword and that (parsed) gsc_date |
| SaveData.IngestRow | app/save_data.py:24-44 | one row: fails, naming that row, iff its date does not parse; otherwise it is counted exactly once: as skipped when its pair is already stored, as inserted when it is not |
| SaveData.IngestRowExtends | app/save_data.py:30-44 | a row that is taken keeps every existing record, a pair already stored adds nothing and uses no id, and afterwards the row's pair is stored |
| SaveData.Ingest | app/save_data.py:23-44 | the loop over the rows in order; a failure names a row whose date does not parse |
| SaveData.IngestConservesCounts | app/save_data.py:20-44 | inserted + skipped == number of rows; the table grows by exactly `inserted` records; existing records are untouched; one id is consumed per insert |
| SaveData.IngestFailsAtFirstBadDate | app/save_data.py:39 | ingestion fails iff some date does not parse, and it fails at the first such row |
| SaveData.IngestInsertsOnlyRows | app/save_data.py:33-44 | every new record is the record of some row, with that row's keyword, metrics, parsed date and labels (or ""), and the ids are consecutive |
| SaveData.IngestStoresEveryRow | app/save_data.py:23-44 | afterwards the (keyword, date) pair of every row is stored |
| SaveData.IngestKeepsKeysUnique | app/save_data.py:24-31 | if (keyword, gsc_date) was unique in the table, it still is |
| SaveData.IngestKeepsIdsFresh | app/save_data.py:33-44 | ids stay pairwise distinct and below the counter |
| SaveData.IngestAllStored | app/save_data.py:24-31 | rows whose pairs are all stored are all skipped and leave the table and counter as they were |
| SaveData.IngestIdempotent | app/save_data.py:24-31 | running the same rows again inserts nothing, skips every row and changes nothing |
| SaveData.IngestKeepsPairAbsent | app/save_data.py:24-44 | a pair that is not stored and that no row carries is still not stored after the run |
| SaveData.IngestFresh | app/save_data.py:33-44 | rows with distinct, unstored pairs are all inserted and none skipped |
| SaveData.IngestErrorSticks | app/save_data.py:39 | a failure on a prefix of the rows is the failure of the whole run |
| SaveData.IngestRows | app/save_data.py:19-47 | the loop with a single commit: on success the table is exactly the ingestion's result; on a bad date nothing is committed |
| SaveData.SaveKeywords | app/save_data.py:17-50 | fetch then ingest; a failed fetch leaves the table untouched, and otherwise the outcome is that of IngestRows on the fetched rows |
| Classification.Classify | app/main.py:109-119 | the adapter never fails: it gives the fallback, or exactly the parsed reply; every call failure and every parse failure gives the fallback |
| Classification.MissingLabelsComeFromReply | app/main.py:132-133 | a classification lacking a label can only come from a reply that parsed to JSON without that key |
| Classification.Labelled | app/main.py:130-134 | a response element exists iff both labels can be read; it keeps the query and carries exactly the classification's intent and recommended_format |
| Classification.ClassifyAll | app/main.py:126-135 | one call and one element per query, in order, each call made for its own query, with the query preserved and the labels of its classification; otherwise the first query whose classification lacks a label, after that many calls |
| Classification.FailuresNeverAbortBatch | app/main.py:126-135 | if no reply parses to JSON without a label, the batch succeeds with one element per query |
| MainApp.ClassifyKeywordWithAi | app/main.py:98-119 | the English adapter gives {"intent": "unknown", "recommended_format": "other"} on any failure, else the parsed reply unchanged |
| MainApp.EnglishFallbackHasLabels | app/main.py:117-119 | a failed call is labelled unknown / other and so never breaks a caller |
| MainApp.ClasificarKeywords | app/main.py:124-135 | `/clasificar`: the batch loop with the English fallback; an empty list gives an empty response without calls |
| MainApp.ExtraerDatos | app/main.py:138-147 | on success, `rows` equals the number of rows carried and the data is the extraction's; otherwise the extraction's error |
| MainApp.HistoryRecord | app/main.py:154-164 | a record is built iff both labels can be read and the date parses; a missing label is reported as such, and with both labels an unparseable date is reported as a bad date; the labels come from the classification, everything else from the item |
| MainApp.SubmittedLabelsIgnored | app/main.py:59-67 | the intent and format submitted with an item do not affect what is stored |
| MainApp.SaveHistory | app/main.py:150-168 | all or nothing: `saved` equals the number of items, and one record per item is appended in order with consecutive ids; an exception on any item commits nothing; one classification call is made per item, with its keyword, up to and including the failing one |
| MainApp.SaveHistoryDoesNotDeduplicate | app/main.py:152-166 | saving an item whose pair is already stored breaks the uniqueness of (keyword, gsc_date) |
| MainApp.Matches | app/main.py:180-187 | a record passes when its date is within each given bound and its labels equal each non-empty label filter |
| MainApp.ReadHistory | app/main.py:171-188 | output sorted newest first, containing each matching record exactly as often as it is stored and nothing else |
| MainApp.ReadHistorySound | app/main.py:179-187 | every listed record is stored and satisfies every active filter |
| MainApp.ReadHistoryComplete | app/main.py:179-187 | every stored record that satisfies the filters is listed |
| MainApp.ReadHistoryUnfiltered | app/main.py:180-187 | with absent (or empty-string label) filters the whole table is listed |
| MainApp.ReadHistoryEmptyWindow | app/main.py:180-183 | a start date after the end date gives [], not an error |
| MainApp.Point | app/main.py:200-205 | a point carries the record's gsc_date, clicks, ctr and position |
| MainApp.Points | app/main.py:199-207 | one point per record, in the records' order |
| MainApp.PointsPermutation | app/main.py:199-207 | projecting two arrangements of the same records gives the same points with the same multiplicities |
| MainApp.GetKeywordTimeseries | app/main.py:190-207 | exactly the projections of the records whose keyword equals the text, each as often as such a record is stored, in ascending date order |
| MainApp.TimeseriesSound | app/main.py:192-207 | each point is the projection (date, clicks, ctr, position) of a stored record whose keyword equals the text exactly |
| MainApp.TimeseriesComplete | app/main.py:192-207 | each stored record of that keyword appears as a point |
| Predictor.Lower | app/services/predictor.py:4 | lower-casing maps each character on its own and keeps the length |
| Predictor.Contains | app/services/predictor.py:6-15 | Python's substring test `word in keyword_lower`: the word occurs at some position |
| Predictor.AnyIn | app/services/predictor.py:6-10 | Python's `any(word in keyword_lower for word in ...)`: some word of the list occurs |
| Predictor.IntentOf | app/services/predictor.py:6-13 | transactional iff a transactional trigger occurs; navigational iff none of the first two groups occurs but a navigational trigger does; informational otherwise; always one of the three |
| Predictor.FormatOf | app/services/predictor.py:15-22 | simulador or calculadora gives "herramienta" whatever the intent; otherwise the format follows the intent |
| Predictor.Capitalize | app/services/predictor.py:24 | the first character upper-cased and the rest lower-cased, same length |
| Predictor.PredictIntentAndFormat | app/services/predictor.py:3-30 | the intent and format of the lower-cased keyword, and the capitalized keyword followed by " – sugerencia SEO" as the title |
| Predictor.LowerAppend | app/services/predictor.py:4 | lower-casing distributes over concatenation |
| Predictor.ContainsInContext | app/services/predictor.py:6 | a substring stays a substring when text is added around it |
| Predictor.TransactionalSurvivesContext | app/services/predictor.py:6-7 | a transactional keyword stays transactional whatever text surrounds it |
| Predictor.ToolFormatSurvivesContext | app/services/predictor.py:15-16 | a keyword with the tool format keeps it whatever text surrounds it |
| Predictor.SolicitarOutranksComo | app/services/predictor.py:6-9 | "¿cómo solicitar un préstamo?" is transactional even though its lower-cased form holds the informational trigger "cómo" |
| IntentClassifierApi.ClasificarKeyword | api/intent_classifier_api.py:25-46 | the Spanish adapter gives {"intent": "desconocido", "recommended_format": "otro"} on any failure, else the parsed reply unchanged |
| IntentClassifierApi.FailedCallIsDesconocido | api/intent_classifier_api.py:44-46 | a failed call is labelled desconocido / otro |
| IntentClassifierApi.ClasificarKeywords | api/intent_classifier_api.py:48-62 | an empty list is refused (and only an empty list) before any call; otherwise the batch loop with the Spanish fallback |
| AiLabeler.LabelFrame.constructor | ai_labeler.py:22-26 | both label columns start as "" for every row |
| AiLabeler.LabelFrame.LabelFirstRows | ai_labeler.py:56-62 | only the first min(50, n) rows are visited, in order, with one call per row made for that row's query; each row gets both labels of its own classification and then one pause; later rows keep their values; a missing label stops the script at that row, after writing the intent only if it was present |
| History.Where | app/main.py:179-187 | keeps exactly the records satisfying the predicate, each with its multiplicity |
| History.InsertByDate | app/main.py:188 | inserting into a date-sorted sequence keeps it sorted and adds exactly that record |
| History.SortByDate | app/main.py:188 | a permutation of its input, sorted by gsc_date in the requested direction |
| History.StoredAppend | app/save_data.py:24-31 | a pair found in the table is still found after records are appended |
| History.HistoryDb.constructor | app/models.py:5-16 | an empty table with ids starting at 1 |

## Left out

- The OpenAI chat call, the Google service-account authentication and the Search Console query are foreign calls. They are inputs: per-call outcomes and a function from request body to response.
- `json.loads`, `strptime` and `fromisoformat` are left abstract. The model does not fix which texts parse.
- SQLAlchemy sessions, `get_db`, commit/close plumbing, `.env` loading, FastAPI routing, CORS and module-level startup checks are left out. So are pydantic validation other than the `days` bound and the `print` logging.
- Response-model validation is left out. A non-string label returned by the service would be rejected or coerced when the response is serialised.
- A `NULL` `gsc_date` is left out: every record carries a date.
- ExtraerDatos: the error body carries `str(e)`. The model carries the structured error instead of its message text.
- GetKeywordTimeseries: the date is rendered with `isoformat()`. The model returns the day number.
- ReadHistory and GetKeywordTimeseries: the order of records with equal dates is left to the database. The model fixes one order and proves nothing that depends on it.
- Predictor.Lower: `str.lower()` and `str.capitalize()` are full Unicode operations. The model maps only ASCII and Latin-1 letters (A-Z, À-Þ except ×). Other characters are unchanged.
- Predictor.SolicitarOutranksComo: this states only the intent of that example, not its format.
- AiLabeler.LabelFrame.LabelFirstRows: `time.sleep(1.5)` is wall-clock behaviour, so pauses are only counted. Reading and writing the CSV files is I/O: the output file is written only when `crashedAt` is `None`.
- AiLabeler.LabelFrame.LabelFirstRows: the table is assumed to have the default row index 0..n-1 and a `query` column.
- `created_at` is one timestamp for the whole run rather than one per insert.
- The lookup-then-insert race between two concurrent ingestions is about concurrency and is not modelled.
- ctr and position are floats. They are passed through unchanged as `real`, and no rounding is modelled.
- The root gsc_fetcher.py script is not part of this model. Its only computation is float rounding around I/O.
- The sklearn training, the HTTP client scripts and the React frontend are not part of this model.
- The `/classify-pending` endpoint, which the frontend calls, is not implemented in any source file, so it is not modelled.
