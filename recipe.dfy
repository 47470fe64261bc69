/**
 * `generate_recipe_from_leftovers`: one model call whose model depends on the pro flag, then
 * the reply is unfenced and parsed into the recipe.
 */
module Recipe {
  import opened Wrappers
  import opened Text
  import opened Json
  import opened External
  import opened Fences
  import opened Schemas
  import opened Prompts

  const ParseFailed := "❌ Failed to parse Gemini response."
  const InternalErrorPrefix := "❌ Internal Server Error: "

  /** `{"recipe": data}`, or a 500 whose body is `{"recipe": None, "message": ...}`. */
  datatype RecipeResponse = RecipeData(recipe: Json) | RecipeFailed(message: string)

  /** `"gemini-2.5-pro-preview-03-25" if request.is_pro else ...`: an absent flag counts as false. */
  function RecipeModel(isPro: Option<bool>): (model: string)
    ensures model == ProModel <==> isPro == Some(true)
    ensures model == ProModel || model == ThinkingModel
  {
    if isPro == Some(true) then ProModel else ThinkingModel
  }

  /** What the handler makes of the model's reply. */
  function ReadRecipe(reply: ModelReply, parse: string -> ParseResult): (r: RecipeResponse)
    ensures r.RecipeData? <==> reply.Reply? && parse(CleanFences(Strip(reply.text))).Parsed?
    ensures r.RecipeData? ==> r.recipe == parse(CleanFences(Strip(reply.text))).value
    ensures reply.CallFailed? ==> r == RecipeFailed(InternalErrorPrefix + reply.message)
    ensures reply.Reply? && r.RecipeFailed? ==> r.message == ParseFailed
  {
    match reply
    case CallFailed(message) => RecipeFailed(InternalErrorPrefix + message)
    case Reply(text) =>
      match parse(CleanFences(Strip(text)))
      case DecodeError(_) => RecipeFailed(ParseFailed)
      case Parsed(v) => RecipeData(v)
  }

  /** The handler: the response and the one call it makes. */
  function GenerateRecipe(request: RecipeRequest, gemini: (string, string) -> ModelReply,
                          parse: string -> ParseResult): (out: (RecipeResponse, seq<Call>))
    ensures out.1 == [GenerateContent(RecipeModel(request.isPro), RecipePrompt(request))]
    ensures out.0 == ReadRecipe(gemini(RecipeModel(request.isPro), RecipePrompt(request)), parse)
  {
    var model := RecipeModel(request.isPro);
    var prompt := RecipePrompt(request);
    (ReadRecipe(gemini(model, prompt), parse), [GenerateContent(model, prompt)])
  }

  /** A recipe fenced as ```` ```json ```` is parsed from its stripped body. */
  lemma FencedRecipeParsed(request: RecipeRequest, gemini: (string, string) -> ModelReply,
                           parse: string -> ParseResult, body: string)
    requires NoBackticks(body)
    requires gemini(RecipeModel(request.isPro), RecipePrompt(request)) == Reply(JsonFence + body + Fence)
    ensures parse(Strip(body)).Parsed? ==> GenerateRecipe(request, gemini, parse).0 == RecipeData(parse(Strip(body)).value)
    ensures parse(Strip(body)).DecodeError? ==> GenerateRecipe(request, gemini, parse).0 == RecipeFailed(ParseFailed)
  {
    var s := JsonFence + body + Fence;
    StripUnchanged(s);
    CleanFencesRoundTrip(body);
  }
}
