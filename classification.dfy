/**
 * The classification adapter shared by app/main.py, api/intent_classifier_api.py and
 * ai_labeler.py: one call to an external chat-completion service whose textual reply is
 * parsed strictly as JSON.  The call and the parser are outside the model: a call is
 * represented by its outcome and the parser by an arbitrary function.
 */
module Classification {
  import opened Common

  /** What one chat-completion call gives back: an exception (network, timeout,
      authentication, no choices) or the text content of the first choice. */
  datatype CallOutcome = CallFailed | Completed(content: string)

  /** `json.loads(content.strip())`: `None` stands for the JSONDecodeError it raises. */
  type JsonParser = string -> Option<Json>

  /** The object `{"intent": intent, "recommended_format": format}`. */
  function LabelPair(intent: string, format: string): Json {
    JObject(map["intent" := JString(intent), "recommended_format" := JString(format)])
  }

  /** Fallback of app/main.py. */
  const EnglishFallback: Json := LabelPair("unknown", "other")

  /** Fallback of api/intent_classifier_api.py and ai_labeler.py. */
  const SpanishFallback: Json := LabelPair("desconocido", "otro")

  /** Both label keys can be read from `v` without raising. */
  predicate HasLabels(v: Json) {
    Get(v, "intent").Some? && Get(v, "recommended_format").Some?
  }

  /**
   * The try/except adapter: total, never raises.  The result is either the fallback or
   * exactly what the parser produced for the reply (no check of the labels against the
   * enumerations listed in the prompt); every failure of the call or of the parser
   * yields the fallback.
   */
  function Classify(outcome: CallOutcome, parse: JsonParser, fallback: Json): (r: Json)
    ensures r == fallback || (outcome.Completed? && parse(outcome.content) == Some(r))
    ensures outcome.CallFailed? ==> r == fallback
    ensures outcome.Completed? && parse(outcome.content).None? ==> r == fallback
    ensures outcome.Completed? && parse(outcome.content).Some? ==> r == parse(outcome.content).value
  {
    match outcome
    case CallFailed => fallback
    case Completed(content) => parse(content).GetOr(fallback)
  }

  /** A label value that could reach a caller cannot be missing unless the
      service replied with well-formed JSON lacking a label key. */
  lemma MissingLabelsComeFromReply(outcome: CallOutcome, parse: JsonParser, fallback: Json)
    requires HasLabels(fallback)
    requires !HasLabels(Classify(outcome, parse, fallback))
    ensures outcome.Completed?
    ensures parse(outcome.content).Some? && !HasLabels(parse(outcome.content).value)
  {
  }

  /** One element of the response of the `/clasificar` endpoints. */
  datatype LabelledQuery = LabelledQuery(query: string, intent: Json, recommendedFormat: Json)

  /** The response element for `query` given its classification, or `None` when
      reading `result["intent"]` or `result["recommended_format"]` raises. */
  function Labelled(query: string, c: Json): (r: Option<LabelledQuery>)
    ensures r.Some? <==> HasLabels(c)
    ensures r.Some? ==> r.value.query == query
    ensures r.Some? ==> Some(r.value.intent) == Get(c, "intent")
                        && Some(r.value.recommendedFormat) == Get(c, "recommended_format")
  {
    if HasLabels(c) then Some(LabelledQuery(query, Get(c, "intent").value, Get(c, "recommended_format").value))
    else None
  }

  /**
   * What the loop of both `/clasificar` endpoints produces: one response element per
   * query, in order, whose labels are those of that query's classification; or, when a
   * classification lacks a label key, `Err(i)` for the first such query `i` after
   * `i + 1` calls.  Reply `replies[i]` answers the call made for `queries[i]`.
   */
  ghost predicate ClassifiedAll(queries: seq<string>, replies: seq<CallOutcome>, parse: JsonParser, fallback: Json,
                                result: Result<seq<LabelledQuery>, nat>, calls: nat)
    requires |replies| == |queries|
  {
    && (result.Ok? <==> forall i :: 0 <= i < |queries| ==> HasLabels(Classify(replies[i], parse, fallback)))
    && (result.Ok? ==> calls == |queries| && |result.value| == |queries|
                       && forall i :: 0 <= i < |queries| ==>
                            Labelled(queries[i], Classify(replies[i], parse, fallback)) == Some(result.value[i]))
    && (result.Err? ==> result.error < |queries| && calls == result.error + 1
                        && !HasLabels(Classify(replies[result.error], parse, fallback))
                        && forall i :: 0 <= i < result.error ==> HasLabels(Classify(replies[i], parse, fallback)))
  }

  /**
   * The loop itself: classify every query in order, one call per query, and append one
   * response element per query.  `prompted` lists the query each call was made for.
   * A classification without both label keys raises a KeyError that nothing catches,
   * so the whole request fails at that query.
   */
  method ClassifyAll(queries: seq<string>, replies: seq<CallOutcome>, parse: JsonParser, fallback: Json)
      returns (result: Result<seq<LabelledQuery>, nat>, calls: nat, ghost prompted: seq<string>)
    requires |replies| == |queries|
    ensures ClassifiedAll(queries, replies, parse, fallback, result, calls)
    ensures calls <= |queries| && prompted == queries[..calls]
  {
    var results: seq<LabelledQuery> := [];
    calls, prompted := 0, [];
    while calls < |queries|
      invariant calls <= |queries| && |results| == calls
      invariant prompted == queries[..calls]
      invariant forall i :: 0 <= i < calls ==>
                  Labelled(queries[i], Classify(replies[i], parse, fallback)) == Some(results[i])
    {
      prompted := prompted + [queries[calls]];
      assert prompted == queries[..calls + 1];
      var c := Classify(replies[calls], parse, fallback);
      var item := Labelled(queries[calls], c);
      if item.None? {
        return Err(calls), calls + 1, prompted;
      }
      results := results + [item.value];
      calls := calls + 1;
    }
    result := Ok(results);
  }

  /** When the service never replies with JSON lacking a label (in particular when
      every call fails), the batch succeeds with one element per query. */
  lemma FailuresNeverAbortBatch(queries: seq<string>, replies: seq<CallOutcome>, parse: JsonParser,
                                fallback: Json, result: Result<seq<LabelledQuery>, nat>, calls: nat)
    requires |replies| == |queries| && HasLabels(fallback)
    requires forall i :: 0 <= i < |replies| ==>
               replies[i].CallFailed? || parse(replies[i].content).None? || HasLabels(parse(replies[i].content).value)
    requires ClassifiedAll(queries, replies, parse, fallback, result, calls)
    ensures result.Ok? && |result.value| == |queries|
  {
  }
}
