/** The caption policy of the content script: how a ranked list of predictions and the
    two stored confidence thresholds become the text written over an image. */
module Captions {
  import opened Wrappers
  import opened Messages

  const HighConfidenceThresholdDefault: real := 0.5
  const LowConfidenceThresholdDefault: real := 0.1

  /** The two keys read from the settings store; a key may be absent. */
  datatype Settings = Settings(high: Option<real>, low: Option<real>)

  /** What the hedged captions throw when the list has no second entry
      (reading `className` of an undefined `predictions[1]`). */
  datatype Fault = MissingSecondPrediction

  function HighThreshold(settings: Settings): real {
    settings.high.GetOr(HighConfidenceThresholdDefault)
  }

  function LowThreshold(settings: Settings): real {
    settings.low.GetOr(LowConfidenceThresholdDefault)
  }

  const NoPredictionText: string := "No prediction \U{1F641}"

  /** The caption when the top score reaches the high threshold. */
  function ConfidentText(top: string): string {
    "\U{1F604} " + top + "!"
  }

  /** The caption when the top score lies between the two thresholds. */
  function HedgedText(top: string, second: string): string {
    top + "?...\n Maybe " + second + "?"
  }

  /** The caption when the top score is below both thresholds. */
  function DoubtfulText(top: string, second: string): string {
    "\U{1F615}  " + top + "????...\n Maybe " + second + "????"
  }

  /** An absent list (`null` or `undefined`) or an empty one. */
  predicate NoPredictions(predictions: Option<seq<Prediction>>) {
    predictions.None? || |predictions.value| == 0
  }

  /** The text for `predictions` under the stored `settings`; the list is ranked, best
      first. The two hedged forms throw when the list has a single entry. */
  function TextContentFromPrediction(predictions: Option<seq<Prediction>>, settings: Settings): (r: Result<string, Fault>)
    ensures NoPredictions(predictions) ==> r == Success(NoPredictionText)
    ensures !NoPredictions(predictions) && predictions.value[0].probability >= HighThreshold(settings) ==>
              r == Success(ConfidentText(predictions.value[0].className))
    ensures !NoPredictions(predictions) &&
            LowThreshold(settings) <= predictions.value[0].probability < HighThreshold(settings) ==>
              r == if |predictions.value| < 2 then Failure(MissingSecondPrediction)
                   else Success(HedgedText(predictions.value[0].className, predictions.value[1].className))
    ensures !NoPredictions(predictions) &&
            predictions.value[0].probability < LowThreshold(settings) &&
            predictions.value[0].probability < HighThreshold(settings) ==>
              r == if |predictions.value| < 2 then Failure(MissingSecondPrediction)
                   else Success(DoubtfulText(predictions.value[0].className, predictions.value[1].className))
  {
    var high := HighThreshold(settings);
    var low := LowThreshold(settings);
    if predictions.None? || |predictions.value| < 1 then
      Success(NoPredictionText)
    else
      var ps := predictions.value;
      if ps[0].probability >= high then
        Success(ConfidentText(ps[0].className))
      else if ps[0].probability >= low && ps[0].probability < high then
        if |ps| < 2 then Failure(MissingSecondPrediction)
        else Success(HedgedText(ps[0].className, ps[1].className))
      else if ps[0].probability < low then
        if |ps| < 2 then Failure(MissingSecondPrediction)
        else Success(DoubtfulText(ps[0].className, ps[1].className))
      else
        assert false; Failure(MissingSecondPrediction)
  }

  /** Every list of at least two predictions gets a caption, whatever the thresholds;
      a single prediction gets one exactly when it is confident. */
  lemma CaptionTotal(predictions: seq<Prediction>, settings: Settings)
    ensures |predictions| >= 2 ==> TextContentFromPrediction(Some(predictions), settings).Success?
    ensures |predictions| == 1 ==>
              (TextContentFromPrediction(Some(predictions), settings).Success? <==>
               predictions[0].probability >= HighThreshold(settings))
  {
  }

  /** An absent setting behaves exactly as if its default were stored. */
  lemma AbsentSettingIsDefault(predictions: Option<seq<Prediction>>, high: Option<real>, low: Option<real>)
    ensures TextContentFromPrediction(predictions, Settings(None, low)) ==
            TextContentFromPrediction(predictions, Settings(Some(HighConfidenceThresholdDefault), low))
    ensures TextContentFromPrediction(predictions, Settings(high, None)) ==
            TextContentFromPrediction(predictions, Settings(high, Some(LowConfidenceThresholdDefault)))
  {
  }

  /** The caption reads only the first two predictions, and a confident caption only the
      first: truncating the ranked list to its top entries does not change it. */
  lemma CaptionReadsTopTwo(predictions: seq<Prediction>, settings: Settings)
    requires |predictions| >= 2
    ensures TextContentFromPrediction(Some(predictions), settings) ==
            TextContentFromPrediction(Some(predictions[..2]), settings)
    ensures predictions[0].probability >= HighThreshold(settings) ==>
              TextContentFromPrediction(Some(predictions), settings) ==
              TextContentFromPrediction(Some(predictions[..1]), settings)
  {
  }

  /** With the default thresholds: a 0.9 "cat" is confident. */
  lemma ConfidentCatScenario()
    ensures TextContentFromPrediction(Some([Prediction("cat", 0.9), Prediction("dog", 0.05)]), Settings(None, None))
            == Success("\U{1F604} cat!")
  {
    assert ConfidentText("cat") == "\U{1F604} cat!";
  }

  /** With the default thresholds: a 0.3 "cat" is hedged and names "dog" as the alternative. */
  lemma HedgedCatScenario()
    ensures TextContentFromPrediction(Some([Prediction("cat", 0.3), Prediction("dog", 0.05)]), Settings(None, None))
            == Success("cat?...\n Maybe dog?")
  {
    assert HedgedText("cat", "dog") == "cat?...\n Maybe dog?";
  }

  /** With the default thresholds: a 0.05 "cat" is doubtful and names "dog" as the alternative. */
  lemma DoubtfulCatScenario()
    ensures TextContentFromPrediction(Some([Prediction("cat", 0.05), Prediction("dog", 0.02)]), Settings(None, None))
            == Success("\U{1F615}  cat????...\n Maybe dog????")
  {
    assert DoubtfulText("cat", "dog") == "\U{1F615}  cat????...\n Maybe dog????";
  }
}
