/**
 * The offline labelling script ai_labeler.py: it loads a keyword table, adds two empty
 * label columns, classifies the first `MAX_ROWS` rows one call at a time with a pause
 * after each, and writes the table out.  The table is a `LabelFrame` whose label
 * columns are arrays updated in place; reading and writing the CSV files are outside
 * the model, as is the length of the pause.  The script's `clasificar_keyword`
 * (lines 32-53) has the prompt and fallback of the API router's, so the model uses
 * `IntentClassifierApi.ClasificarKeyword` for both.
 */
module AiLabeler {
  import opened Common
  import opened Classification
  import opened IntentClassifierApi

  /** Line 29. */
  const MaxRows: nat := 50

  function Min(a: nat, b: nat): nat {
    if a <= b then a else b
  }

  /** The `query` column and the two label columns of the DataFrame (default row index). */
  class LabelFrame {
    const queries: seq<string>
    const intent: array<Json>
    const recommendedFormat: array<Json>

    ghost predicate Valid()
      reads this
    {
      intent.Length == |queries| && recommendedFormat.Length == |queries| && intent != recommendedFormat
    }

    /** Lines 22-26: the table as read, with both label columns set to "". */
    constructor (queries: seq<string>)
      ensures Valid() && this.queries == queries
      ensures fresh(intent) && fresh(recommendedFormat)
      ensures forall i :: 0 <= i < |queries| ==> intent[i] == JString("") && recommendedFormat[i] == JString("")
    {
      this.queries := queries;
      intent := new Json[|queries|](_ => JString(""));
      recommendedFormat := new Json[|queries|](_ => JString(""));
    }

    /**
     * The loop of lines 56-62 over `df.head(MAX_ROWS)`.  Reply `replies[i]` answers the
     * call for row `i`.  Each row gets the labels of its classification, then a pause.
     * A classification without `intent` crashes the script before row `i` is touched; one
     * with `intent` but without `recommended_format` crashes after writing the intent.
     * `crashedAt` is that row; the output file of line 66 is written only when it is
     * `None`.  Rows past the ones visited keep their values.  `prompted` lists the
     * query each call was made for (the prompt of line 34).
     */
    method LabelFirstRows(replies: seq<CallOutcome>, parse: JsonParser)
        returns (calls: nat, pauses: nat, crashedAt: Option<nat>, ghost prompted: seq<string>)
      requires Valid()
      requires |replies| == Min(MaxRows, |queries|)
      modifies intent, recommendedFormat
      ensures Valid()
      ensures calls <= |replies| && prompted == queries[..calls]
      ensures crashedAt.None? ==>
                && calls == |replies| && pauses == |replies|
                && forall i :: 0 <= i < |replies| ==> HasLabels(ClasificarKeyword(replies[i], parse))
      ensures crashedAt.Some? ==>
                && crashedAt.value < |replies|
                && calls == crashedAt.value + 1 && pauses == crashedAt.value
                && !HasLabels(ClasificarKeyword(replies[crashedAt.value], parse))
                && forall i :: 0 <= i < crashedAt.value ==> HasLabels(ClasificarKeyword(replies[i], parse))
      ensures forall i :: 0 <= i < pauses ==>
                Some(intent[i]) == Get(ClasificarKeyword(replies[i], parse), "intent")
                && Some(recommendedFormat[i]) == Get(ClasificarKeyword(replies[i], parse), "recommended_format")
      ensures crashedAt.Some? ==>
                var j := crashedAt.value;
                && intent[j] == Get(ClasificarKeyword(replies[j], parse), "intent").GetOr(old(intent[j]))
                && recommendedFormat[j] == old(recommendedFormat[j])
      ensures forall i :: calls <= i < |queries| ==>
                intent[i] == old(intent[i]) && recommendedFormat[i] == old(recommendedFormat[i])
    {
      var n := Min(MaxRows, |queries|);
      calls, pauses, prompted := 0, 0, [];
      while pauses < n
        invariant pauses <= n && calls == pauses
        invariant prompted == queries[..calls]
        invariant forall i :: 0 <= i < pauses ==> HasLabels(ClasificarKeyword(replies[i], parse))
        invariant forall i :: 0 <= i < pauses ==>
                    Some(intent[i]) == Get(ClasificarKeyword(replies[i], parse), "intent")
                    && Some(recommendedFormat[i]) == Get(ClasificarKeyword(replies[i], parse), "recommended_format")
        invariant forall i :: pauses <= i < |queries| ==>
                    intent[i] == old(intent[i]) && recommendedFormat[i] == old(recommendedFormat[i])
      {
        var resultado := ClasificarKeyword(replies[pauses], parse);
        prompted := prompted + [queries[pauses]];
        assert prompted == queries[..calls + 1];
        calls := calls + 1;
        var newIntent := Get(resultado, "intent");
        if newIntent.None? {
          return calls, pauses, Some(pauses), prompted;
        }
        intent[pauses] := newIntent.value;
        var format := Get(resultado, "recommended_format");
        if format.None? {
          return calls, pauses, Some(pauses), prompted;
        }
        recommendedFormat[pauses] := format.value;
        pauses := pauses + 1;
      }
      crashedAt := None;
    }
  }
}
