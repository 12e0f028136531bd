/**
 * The rule-based fallback classifier of app/services/predictor.py: a priority chain of
 * case-insensitive substring triggers for the intent, a second chain for the content
 * format, and a title derived from the keyword.  Pure and deterministic.
 *
 * Python's `str.lower()` and `str.capitalize()` are full Unicode case maps; the model
 * maps the ASCII letters and the Latin-1 letters U+00C0..U+00FE and leaves every other
 * character unchanged.
 */
module Predictor {

  const TransactionalTriggers: seq<string> := ["comprar", "cotizar", "precio", "solicitar", "contratar", "mejor"]
  const InformationalTriggers: seq<string> := ["qué es", "cómo", "guía", "explicación", "información"]
  const NavigationalTriggers: seq<string> := ["saldo simple", "sat", "fovissste", "infonavit"]

  const Transactional := "transaccional"
  const Informational := "informacional"
  const Navigational := "navegacional"

  const ToolFormat := "herramienta"
  const TransactionalFormat := "comparador o landing page"
  const InformationalFormat := "artículo educativo"
  const BrandFormat := "página de marca o guía"

  const TitleSuffix := " – sugerencia SEO"

  /** The three keys of the returned dictionary. */
  datatype Prediction = Prediction(intent: string, recommendedFormat: string, titleSuggestion: string)

  function LowerChar(c: char): char {
    if 'A' <= c <= 'Z' || ('À' <= c <= 'Þ' && c != '×') then (c as int + 32) as char else c
  }

  function UpperChar(c: char): char {
    if 'a' <= c <= 'z' || ('à' <= c <= 'þ' && c != '÷') then (c as int - 32) as char else c
  }

  function Lower(s: string): (r: string)
    ensures |r| == |s| && forall i :: 0 <= i < |s| ==> r[i] == LowerChar(s[i])
  {
    seq(|s|, i requires 0 <= i < |s| => LowerChar(s[i]))
  }

  /** `w` occurs in `s` starting at index `i`. */
  predicate OccursAt(s: string, w: string, i: int) {
    0 <= i <= |s| - |w| && s[i..i + |w|] == w
  }

  /** Python's `w in s` on strings. */
  predicate Contains(s: string, w: string) {
    exists i | 0 <= i <= |s| - |w| :: OccursAt(s, w, i)
  }

  /** Python's `any(w in s for w in words)`. */
  predicate AnyIn(words: seq<string>, s: string) {
    exists w :: w in words && Contains(s, w)
  }

  /**
   * The intent chain (lines 6-13) on the lower-cased keyword: a transactional trigger
   * wins over everything, informational triggers are consulted only without one,
   * navigational triggers only when neither matched, and the default is informational.
   */
  function IntentOf(lowered: string): (r: string)
    ensures r in {Transactional, Informational, Navigational}
    ensures r == Transactional <==> AnyIn(TransactionalTriggers, lowered)
    ensures r == Navigational <==>
              !AnyIn(TransactionalTriggers, lowered) && !AnyIn(InformationalTriggers, lowered)
              && AnyIn(NavigationalTriggers, lowered)
    ensures r == Informational <==>
              !AnyIn(TransactionalTriggers, lowered)
              && (AnyIn(InformationalTriggers, lowered) || !AnyIn(NavigationalTriggers, lowered))
  {
    if AnyIn(TransactionalTriggers, lowered) then Transactional
    else if AnyIn(InformationalTriggers, lowered) then Informational
    else if AnyIn(NavigationalTriggers, lowered) then Navigational
    else Informational
  }

  /** The format chain (lines 15-22): a tool word decides regardless of intent;
      otherwise the format follows the intent. */
  function FormatOf(lowered: string, intent: string): (r: string)
    ensures Contains(lowered, "simulador") || Contains(lowered, "calculadora") ==> r == ToolFormat
    ensures !Contains(lowered, "simulador") && !Contains(lowered, "calculadora") ==>
              r == (if intent == Transactional then TransactionalFormat
                    else if intent == Informational then InformationalFormat
                    else BrandFormat)
  {
    if Contains(lowered, "simulador") || Contains(lowered, "calculadora") then ToolFormat
    else if intent == Transactional then TransactionalFormat
    else if intent == Informational then InformationalFormat
    else BrandFormat
  }

  /** Python's `str.capitalize()`: first character upper-cased, the rest lower-cased. */
  function Capitalize(s: string): (r: string)
    ensures |r| == |s|
    ensures |s| > 0 ==> r[0] == UpperChar(s[0])
    ensures forall i :: 1 <= i < |s| ==> r[i] == LowerChar(s[i])
  {
    if s == [] then [] else [UpperChar(s[0])] + Lower(s[1..])
  }

  /** `predict_intent_and_format` (lines 3-30). */
  function PredictIntentAndFormat(keyword: string): (p: Prediction)
    ensures p.intent == IntentOf(Lower(keyword))
    ensures p.recommendedFormat == FormatOf(Lower(keyword), p.intent)
    ensures |p.titleSuggestion| == |keyword| + |TitleSuffix|
    ensures p.titleSuggestion[..|keyword|] == Capitalize(keyword)
    ensures p.titleSuggestion[|keyword|..] == TitleSuffix
  {
    var lowered := Lower(keyword);
    var intent := IntentOf(lowered);
    Prediction(intent, FormatOf(lowered, intent), Capitalize(keyword) + TitleSuffix)
  }

  /** Lower-casing works character by character, so it distributes over concatenation. */
  lemma LowerAppend(a: string, b: string)
    ensures Lower(a + b) == Lower(a) + Lower(b)
  {
  }

  lemma {:induction false} ContainsInContext(s: string, w: string, left: string, right: string)
    requires Contains(s, w)
    ensures Contains(left + s + right, w)
  {
    var i :| 0 <= i <= |s| - |w| && OccursAt(s, w, i);
    var t := left + s + right;
    var j := |left| + i;
    assert t[j..j + |w|] == s[i..i + |w|] == w;
    assert OccursAt(t, w, j);
  }

  lemma {:induction false} AnyInContext(words: seq<string>, s: string, left: string, right: string)
    requires AnyIn(words, s)
    ensures AnyIn(words, left + s + right)
  {
    var w :| w in words && Contains(s, w);
    ContainsInContext(s, w, left, right);
  }

  /**
   * Priority is robust: a keyword classified as transactional stays transactional
   * whatever text surrounds it, because no other trigger can override that decision;
   * a tool word likewise keeps the tool format.
   */
  lemma {:induction false} TransactionalSurvivesContext(keyword: string, left: string, right: string)
    requires PredictIntentAndFormat(keyword).intent == Transactional
    ensures PredictIntentAndFormat(left + keyword + right).intent == Transactional
  {
    LowerAppend(left, keyword);
    LowerAppend(left + keyword, right);
    AnyInContext(TransactionalTriggers, Lower(keyword), Lower(left), Lower(right));
  }

  lemma {:induction false} ToolFormatSurvivesContext(keyword: string, left: string, right: string)
    requires PredictIntentAndFormat(keyword).recommendedFormat == ToolFormat
    ensures PredictIntentAndFormat(left + keyword + right).recommendedFormat == ToolFormat
  {
    var lowered := Lower(keyword);
    LowerAppend(left, keyword);
    LowerAppend(left + keyword, right);
    if Contains(lowered, "simulador") {
      ContainsInContext(lowered, "simulador", Lower(left), Lower(right));
    } else {
      ContainsInContext(lowered, "calculadora", Lower(left), Lower(right));
    }
  }

  /** A keyword mixing an informational phrasing with the trigger "solicitar" is
      transactional: the transactional chain is consulted first. */
  lemma SolicitarOutranksComo()
    ensures AnyIn(InformationalTriggers, Lower("¿cómo solicitar un préstamo?"))
    ensures PredictIntentAndFormat("¿cómo solicitar un préstamo?").intent == Transactional
  {
    ComoFound();
    assert "cómo" in InformationalTriggers;
    SolicitarFound();
    assert "solicitar" in TransactionalTriggers;
  }

  /** "solicitar" is found at index 6 of the lower-cased example keyword. */
  lemma SolicitarFound()
    ensures Contains(Lower("¿cómo solicitar un préstamo?"), "solicitar")
  {
    var keyword := "¿cómo solicitar un préstamo?";
    var lowered := Lower(keyword);
    forall k | 6 <= k < 15 ensures lowered[k] == "solicitar"[k - 6] {
      assert keyword[k] == "solicitar"[k - 6] && LowerChar(keyword[k]) == keyword[k];
    }
    assert lowered[6..15] == "solicitar";
    assert OccursAt(lowered, "solicitar", 6);
  }

  /** "cómo" is found at index 1 of the lower-cased example keyword. */
  lemma ComoFound()
    ensures Contains(Lower("¿cómo solicitar un préstamo?"), "cómo")
  {
    var keyword := "¿cómo solicitar un préstamo?";
    var lowered := Lower(keyword);
    forall k | 1 <= k < 5 ensures lowered[k] == "cómo"[k - 1] {
      assert keyword[k] == "cómo"[k - 1] && LowerChar(keyword[k]) == keyword[k];
    }
    assert lowered[1..5] == "cómo";
    assert OccursAt(lowered, "cómo", 1);
  }
}
