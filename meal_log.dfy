/**
 * `generate_meal_log_from_text`: a validator model first decides whether the text describes a
 * meal at all; only then does the main model turn it into a structured log, which is
 * unfenced and parsed.
 */
module MealLog {
  import opened Text
  import opened Json
  import opened External
  import opened Fences
  import opened Prompts

  const InvalidDescription := "❌ Could not detect a valid meal description. Please try again with more detail."
  const InvalidLog := "❌ Unable to detect a valid meal log."
  const ParseFailed := "❌ Failed to parse AI response. Try again."
  const InternalErrorPrefix := "❌ Internal Error: "

  /** The JSON body: `{"log_data": data}`, or `{"log_data": None, "message": ...}` with a status. */
  datatype MealLogResponse =
    | LogData(data: Json)
    | NoLog(status: int, message: string)

  /** `validation_response.text.strip().lower() == "yes"`. */
  predicate SaysYes(text: string) {
    Lower(Strip(text)) == "yes"
  }

  /** The calls made when the validator says no, and when it says yes. */
  function ValidationCall(description: string): Call {
    GenerateContent(ValidatorModel, ValidationPrompt(description))
  }

  function GenerationCall(description: string): Call {
    GenerateContent(ProModel, MealLogPrompt(description))
  }

  /** What the handler makes of the main model's reply text. */
  function ReadLog(text: string, parse: string -> ParseResult): (r: MealLogResponse)
    ensures r.LogData? ==> parse(CleanFences(Strip(text))) == Parsed(r.data) && r.data != JString(InvalidSentinel)
    ensures r.NoLog? ==> r == NoLog(500, ParseFailed) || r == NoLog(200, InvalidLog)
    ensures parse(CleanFences(Strip(text))).DecodeError? ==> r == NoLog(500, ParseFailed)
    ensures parse(CleanFences(Strip(text))) == Parsed(JString(InvalidSentinel)) ==> r == NoLog(200, InvalidLog)
    ensures parse(CleanFences(Strip(text))).Parsed? && parse(CleanFences(Strip(text))).value != JString(InvalidSentinel)
            ==> r == LogData(parse(CleanFences(Strip(text))).value)
  {
    match parse(CleanFences(Strip(text)))
    case DecodeError(_) => NoLog(500, ParseFailed)
    case Parsed(v) => if v == JString(InvalidSentinel) then NoLog(200, InvalidLog) else LogData(v)
  }

  /**
   * The handler over the model oracle `gemini(model, prompt)` and the parser; the result is the
   * response and the calls made. Any exception other than a decode error becomes a 500.
   */
  function GenerateMealLog(description: string, gemini: (string, string) -> ModelReply,
                           parse: string -> ParseResult): (out: (MealLogResponse, seq<Call>))
    ensures out.1 == [ValidationCall(description)] || out.1 == [ValidationCall(description), GenerationCall(description)]
    ensures |out.1| == 2 <==> (gemini(ValidatorModel, ValidationPrompt(description)).Reply?
                               && SaysYes(gemini(ValidatorModel, ValidationPrompt(description)).text))
    ensures out.0.LogData? ==> |out.1| == 2 && gemini(ProModel, MealLogPrompt(description)).Reply?
                               && out.0 == ReadLog(gemini(ProModel, MealLogPrompt(description)).text, parse)
    ensures (gemini(ValidatorModel, ValidationPrompt(description)).Reply?
             && !SaysYes(gemini(ValidatorModel, ValidationPrompt(description)).text))
            ==> out.0 == NoLog(200, InvalidDescription)
    ensures gemini(ValidatorModel, ValidationPrompt(description)).CallFailed?
            ==> out.0 == NoLog(500, InternalErrorPrefix + gemini(ValidatorModel, ValidationPrompt(description)).message)
    ensures |out.1| == 2 && gemini(ProModel, MealLogPrompt(description)).Reply?
            ==> out.0 == ReadLog(gemini(ProModel, MealLogPrompt(description)).text, parse)
    ensures |out.1| == 2 && gemini(ProModel, MealLogPrompt(description)).CallFailed?
            ==> out.0 == NoLog(500, InternalErrorPrefix + gemini(ProModel, MealLogPrompt(description)).message)
  {
    var check := [ValidationCall(description)];
    match gemini(ValidatorModel, ValidationPrompt(description))
    case CallFailed(message) => (NoLog(500, InternalErrorPrefix + message), check)
    case Reply(verdict) =>
      if !SaysYes(verdict) then (NoLog(200, InvalidDescription), check)
      else
        var calls := check + [GenerationCall(description)];
        match gemini(ProModel, MealLogPrompt(description))
        case CallFailed(message) => (NoLog(500, InternalErrorPrefix + message), calls)
        case Reply(text) => (ReadLog(text, parse), calls)
  }

  /** The validator's word is read without regard to case or surrounding whitespace. */
  lemma SaysYesPadded(p1: string, word: string, p2: string)
    requires forall i :: 0 <= i < |p1| ==> IsSpace(p1[i])
    requires forall i :: 0 <= i < |p2| ==> IsSpace(p2[i])
    requires |word| == 3 && LowerChar(word[0]) == 'y' && LowerChar(word[1]) == 'e' && LowerChar(word[2]) == 's'
    ensures SaysYes(p1 + word + p2)
  {
    StripPadded(p1, word, p2);
  }

  /** Conversely, only a three-letter `yes` in some mix of cases, once stripped, lets the text through. */
  lemma SaysYesOnlyYes(text: string)
    requires SaysYes(text)
    ensures var w := Strip(text); |w| == 3 && LowerChar(w[0]) == 'y' && LowerChar(w[1]) == 'e' && LowerChar(w[2]) == 's'
  {
    var w := Strip(text);
    assert Lower(w) == "yes";
    assert Lower(w)[0] == 'y' && Lower(w)[1] == 'e' && Lower(w)[2] == 's';
  }

  /** A log fenced as ```` ```json ```` comes back parsed from the fenced body, whatever its padding. */
  lemma FencedLogAccepted(description: string, gemini: (string, string) -> ModelReply,
                          parse: string -> ParseResult, body: string, v: Json)
    requires gemini(ValidatorModel, ValidationPrompt(description)).Reply?
    requires SaysYes(gemini(ValidatorModel, ValidationPrompt(description)).text)
    requires gemini(ProModel, MealLogPrompt(description)) == Reply(JsonFence + body + Fence)
    requires NoBackticks(body) && parse(Strip(body)) == Parsed(v) && v != JString(InvalidSentinel)
    ensures GenerateMealLog(description, gemini, parse)
            == (LogData(v), [ValidationCall(description), GenerationCall(description)])
  {
    var s := JsonFence + body + Fence;
    StripUnchanged(s);
    CleanFencesRoundTrip(body);
  }
}
