/**
 * The Spanish classification router of api/intent_classifier_api.py: the same adapter
 * as app/main.py with a Spanish prompt and fallback, and a `/clasificar` endpoint that
 * additionally rejects an empty keyword list with HTTP 400.
 */
module IntentClassifierApi {
  import opened Common
  import opened Classification

  /**
   * `clasificar_keyword` (lines 25-46): never raises; a failed call or an unparsable
   * reply yields `{"intent": "desconocido", "recommended_format": "otro"}`.
   */
  function ClasificarKeyword(outcome: CallOutcome, parse: JsonParser): (r: Json)
    ensures r == SpanishFallback || (outcome.Completed? && parse(outcome.content) == Some(r))
    ensures outcome.CallFailed? ==> r == SpanishFallback
    ensures outcome.Completed? && parse(outcome.content).None? ==> r == SpanishFallback
    ensures outcome.Completed? && parse(outcome.content).Some? ==> r == parse(outcome.content).value
  {
    Classify(outcome, parse, SpanishFallback)
  }

  /** A failed call is labelled "desconocido" / "otro". */
  lemma FailedCallIsDesconocido(outcome: CallOutcome, parse: JsonParser)
    requires outcome.CallFailed?
    ensures Get(ClasificarKeyword(outcome, parse), "intent") == Some(JString("desconocido"))
    ensures Get(ClasificarKeyword(outcome, parse), "recommended_format") == Some(JString("otro"))
  {
  }

  datatype RequestError =
    | EmptyKeywords             // HTTPException(400, "La lista de keywords está vacía")
    | MissingLabel(index: nat)  // the uncaught KeyError on `resultado[...]` for this keyword

  /**
   * `POST /clasificar` of the router (lines 48-62): an empty list is refused before any
   * call; otherwise one call per keyword, in order, exactly as the loop of app/main.py
   * but with the Spanish fallback.
   */
  method ClasificarKeywords(queries: seq<string>, replies: seq<CallOutcome>, parse: JsonParser)
      returns (result: Result<seq<LabelledQuery>, RequestError>, calls: nat, ghost prompted: seq<string>)
    requires |replies| == |queries|
    ensures calls <= |queries| && prompted == queries[..calls]
    ensures result == Err(EmptyKeywords) <==> queries == []
    ensures queries == [] ==> calls == 0
    ensures result.Ok? ==> ClassifiedAll(queries, replies, parse, SpanishFallback, Ok(result.value), calls)
    ensures result.Err? && result.error.MissingLabel? ==>
              ClassifiedAll(queries, replies, parse, SpanishFallback, Err(result.error.index), calls)
    ensures queries != [] ==>
              (result.Ok? <==> forall i :: 0 <= i < |queries| ==> HasLabels(ClasificarKeyword(replies[i], parse)))
  {
    if queries == [] {
      return Err(EmptyKeywords), 0, [];
    }
    var inner;
    inner, calls, prompted := ClassifyAll(queries, replies, parse, SpanishFallback);
    match inner
    case Ok(items) => result := Ok(items);
    case Err(i) => result := Err(MissingLabel(i));
  }
}
