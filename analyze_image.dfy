/**
 * The `/analyze-image` handler: decode the photo, ask the model for a nutrition analysis,
 * cut the outermost `{ ... }` out of the reply, parse it, and accept it only when it names
 * the meal it found.
 */
module AnalyzeImage {
  import opened Wrappers
  import opened Text
  import opened Json
  import opened External
  import opened Prompts

  // ----- Locating the object in the reply -----

  /** The first position of `c` in `s`. */
  function IndexOf(s: string, c: char): (r: Option<nat>)
    ensures r.None? <==> forall k :: 0 <= k < |s| ==> s[k] != c
    ensures r.Some? ==> r.value < |s| && s[r.value] == c && forall k :: 0 <= k < r.value ==> s[k] != c
  {
    if s == [] then None
    else if s[0] == c then Some(0)
    else match IndexOf(s[1..], c)
      case None => None
      case Some(k) => Some(k + 1)
  }

  /** The last position of `c` in `s`. */
  function LastIndexOf(s: string, c: char): (r: Option<nat>)
    ensures r.None? <==> forall k :: 0 <= k < |s| ==> s[k] != c
    ensures r.Some? ==> r.value < |s| && s[r.value] == c && forall k :: r.value < k < |s| ==> s[k] != c
  {
    if s == [] then None
    else if s[|s| - 1] == c then Some(|s| - 1)
    else LastIndexOf(s[..|s| - 1], c)
  }

  /**
   * `re.search(r'{.*}', text, re.DOTALL)`: the leftmost match starts at the first `{`, and the
   * greedy `.*` runs to the last `}`; there is a match exactly when some `{` precedes some `}`.
   */
  function JsonSpan(text: string): (r: Option<string>)
    ensures r.Some? <==> exists i, j :: 0 <= i < j < |text| && text[i] == '{' && text[j] == '}'
    ensures r.Some? ==> exists i, j :: 0 <= i < j < |text| && r.value == text[i..j + 1]
                          && text[i] == '{' && text[j] == '}'
                          && (forall k :: 0 <= k < i ==> text[k] != '{')
                          && (forall k :: j < k < |text| ==> text[k] != '}')
  {
    var first := IndexOf(text, '{');
    var last := LastIndexOf(text, '}');
    if first.Some? && last.Some? && first.value < last.value then
      Some(text[first.value..last.value + 1])
    else
      None
  }

  /** An object between text without `{` before it and text without `}` after it is cut out exactly. */
  lemma JsonSpanExtracts(pre: string, obj: string, post: string)
    requires forall k :: 0 <= k < |pre| ==> pre[k] != '{'
    requires forall k :: 0 <= k < |post| ==> post[k] != '}'
    requires |obj| >= 2 && obj[0] == '{' && obj[|obj| - 1] == '}'
    ensures JsonSpan(pre + obj + post) == Some(obj)
  {
    var text := pre + obj + post;
    var i, j := |pre|, |pre| + |obj| - 1;
    assert text[i] == '{' && text[j] == '}';
    assert forall k :: 0 <= k < i ==> text[k] != '{' by {
      forall k | 0 <= k < i
        ensures text[k] != '{'
      {
        assert text[k] == pre[k];
      }
    }
    assert forall k :: j < k < |text| ==> text[k] != '}' by {
      forall k | j < k < |text|
        ensures text[k] != '}'
      {
        assert text[k] == post[k - j - 1];
      }
    }
    var first := IndexOf(text, '{');
    var last := LastIndexOf(text, '}');
    assert first == Some(i);
    assert last == Some(j);
    assert text[i..j + 1] == obj;
  }

  // ----- The handler -----

  const ServerErrorPrefix := "Server error: "
  const NoMealFound := "Unable to detect a valid meal in the image."
  const FoodUnidentified := "Could not confidently identify food in this image."

  /** The handler's answer: the parsed analysis, an `invalid_input` error body, or an HTTP 500. */
  datatype AnalysisResponse =
    | Analysis(body: Json)
    | InvalidInput(error: string)
    | ServerError(detail: string)

  /** A reply the handler accepts: an object whose `meal_data` is an object with a truthy `name`. */
  predicate IdentifiedMeal(v: Json) {
    v.JObject? && MealDataField in v.fields && v.fields[MealDataField].JObject?
    && NameField in v.fields[MealDataField].fields && Truthy(v.fields[MealDataField].fields[NameField])
  }

  /**
   * `if not parsed.get("meal_data") or not parsed["meal_data"].get("name")`; calling `.get` on
   * something that is not a `dict` raises, and the handler turns that into a 500.
   */
  function CheckAnalysis(v: Json): (r: AnalysisResponse)
    ensures r.Analysis? <==> IdentifiedMeal(v)
    ensures r.Analysis? ==> r.body == v
    ensures !v.JObject? ==> r == ServerError(ServerErrorPrefix + NoGetMessage(v))
    ensures v.JObject? && !Truthy(Get(v.fields, MealDataField)) ==> r == InvalidInput(FoodUnidentified)
    ensures v.JObject? && Truthy(Get(v.fields, MealDataField)) && !Get(v.fields, MealDataField).JObject?
            ==> r == ServerError(ServerErrorPrefix + NoGetMessage(Get(v.fields, MealDataField)))
    ensures v.JObject? && Get(v.fields, MealDataField).JObject?
            && !Truthy(Get(Get(v.fields, MealDataField).fields, NameField))
            ==> r == InvalidInput(FoodUnidentified)
  {
    if !v.JObject? then ServerError(ServerErrorPrefix + NoGetMessage(v))
    else
      var mealData := Get(v.fields, MealDataField);
      if !Truthy(mealData) then InvalidInput(FoodUnidentified)
      else if !mealData.JObject? then ServerError(ServerErrorPrefix + NoGetMessage(mealData))
      else if !Truthy(Get(mealData.fields, NameField)) then InvalidInput(FoodUnidentified)
      else Analysis(v)
  }

  /** The detail of every 500 the handler raises. */
  predicate IsServerError(detail: string) {
    |detail| >= |ServerErrorPrefix| && detail[..|ServerErrorPrefix|] == ServerErrorPrefix
  }

  /** What the handler makes of the model's reply text. */
  function InspectReply(text: string, parse: string -> ParseResult): (r: AnalysisResponse)
    ensures r.Analysis? <==> JsonSpan(Strip(text)).Some? && parse(JsonSpan(Strip(text)).value).Parsed?
                             && IdentifiedMeal(parse(JsonSpan(Strip(text)).value).value)
    ensures r.Analysis? ==> r.body == parse(JsonSpan(Strip(text)).value).value
    ensures r.InvalidInput? ==> r.error == NoMealFound || r.error == FoodUnidentified
    ensures r.ServerError? ==> IsServerError(r.detail)
    ensures JsonSpan(Strip(text)).None? ==> r == InvalidInput(NoMealFound)
    ensures JsonSpan(Strip(text)).Some? && parse(JsonSpan(Strip(text)).value).DecodeError?
            ==> r == ServerError(ServerErrorPrefix + parse(JsonSpan(Strip(text)).value).message)
    ensures JsonSpan(Strip(text)).Some? && parse(JsonSpan(Strip(text)).value).Parsed?
            ==> r == CheckAnalysis(parse(JsonSpan(Strip(text)).value).value)
  {
    match JsonSpan(Strip(text))
    case None => InvalidInput(NoMealFound)
    case Some(span) =>
      match parse(span)
      case DecodeError(message) => ServerError(ServerErrorPrefix + message)
      case Parsed(v) => CheckAnalysis(v)
  }

  /**
   * `analyze_image`. `imageError` is the message of the exception raised while decoding the
   * base64 text or opening it as an image, if any; `gemini(model, prompt)` is the model's reply.
   * The result is the response and the external calls made.
   */
  function Analyze(imageError: Option<string>, gemini: (string, string) -> ModelReply,
                   parse: string -> ParseResult): (out: (AnalysisResponse, seq<Call>))
    ensures imageError.Some? ==> out == (ServerError(ServerErrorPrefix + imageError.value), [])
    ensures imageError.None? ==> out.1 == [GenerateContent(ProModel, AnalysisPrompt)]
    ensures out.0.Analysis? ==> IdentifiedMeal(out.0.body)
    ensures out.0.Analysis? ==> exists text :: gemini(ProModel, AnalysisPrompt) == Reply(text)
                                  && JsonSpan(Strip(text)).Some?
                                  && parse(JsonSpan(Strip(text)).value) == Parsed(out.0.body)
    ensures out.0.InvalidInput? ==> out.0.error == NoMealFound || out.0.error == FoodUnidentified
    ensures out.0.ServerError? ==> IsServerError(out.0.detail)
    ensures imageError.None? && gemini(ProModel, AnalysisPrompt).CallFailed?
            ==> out.0 == ServerError(ServerErrorPrefix + gemini(ProModel, AnalysisPrompt).message)
    ensures imageError.None? && gemini(ProModel, AnalysisPrompt).Reply?
            ==> out.0 == InspectReply(gemini(ProModel, AnalysisPrompt).text, parse)
  {
    if imageError.Some? then (ServerError(ServerErrorPrefix + imageError.value), [])
    else
      var calls := [GenerateContent(ProModel, AnalysisPrompt)];
      match gemini(ProModel, AnalysisPrompt)
      case CallFailed(message) => (ServerError(ServerErrorPrefix + message), calls)
      case Reply(text) => (InspectReply(text, parse), calls)
  }

  /** A reply with no `{` before a `}` is turned away before anything is parsed. */
  lemma NoObjectNoParse(imageError: Option<string>, gemini: (string, string) -> ModelReply,
                        parse1: string -> ParseResult, parse2: string -> ParseResult)
    requires gemini(ProModel, AnalysisPrompt).Reply?
    requires JsonSpan(Strip(gemini(ProModel, AnalysisPrompt).text)).None?
    ensures Analyze(imageError, gemini, parse1) == Analyze(imageError, gemini, parse2)
    ensures imageError.None? ==> Analyze(imageError, gemini, parse1).0 == InvalidInput(NoMealFound)
  {
  }

  /** A well-formed object wrapped in chatter is accepted as it was parsed. */
  lemma AcceptsWrappedAnalysis(gemini: (string, string) -> ModelReply, parse: string -> ParseResult,
                               pre: string, obj: string, post: string, v: Json)
    requires gemini(ProModel, AnalysisPrompt) == Reply(pre + obj + post)
    requires Strip(pre + obj + post) == pre + obj + post
    requires forall k :: 0 <= k < |pre| ==> pre[k] != '{'
    requires forall k :: 0 <= k < |post| ==> post[k] != '}'
    requires |obj| >= 2 && obj[0] == '{' && obj[|obj| - 1] == '}'
    requires parse(obj) == Parsed(v) && IdentifiedMeal(v)
    ensures Analyze(None, gemini, parse) == (Analysis(v), [GenerateContent(ProModel, AnalysisPrompt)])
  {
    var text := pre + obj + post;
    JsonSpanExtracts(pre, obj, post);
    InspectFound(text, parse, obj, v);
  }

  lemma InspectFound(text: string, parse: string -> ParseResult, obj: string, v: Json)
    requires JsonSpan(Strip(text)) == Some(obj) && parse(obj) == Parsed(v) && IdentifiedMeal(v)
    ensures InspectReply(text, parse) == Analysis(v)
  {
  }
}
