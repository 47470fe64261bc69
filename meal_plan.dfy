/**
 * The `/generate-meals` handler: it fills in the request's meal count from its eating
 * frequency, picks a model from the subscription and the regeneration count, and parses
 * the model's reply once the ```` ```json ```` fence lines are cut away.
 */
module MealPlan {
  import opened Wrappers
  import opened Text
  import opened Json
  import opened External
  import opened Fences
  import opened Schemas
  import opened Prompts

  /** `eating_frequency_mapping`. */
  const EatingFrequencyMeals: map<string, int> := map[
    "three_meals" := 3,
    "two_meals" := 2,
    "intermittent_fasting" := 2,
    "small_frequent_meals" := 5,
    "one_large_meal" := 1]

  const DefaultMealCount := 3

  /** `eating_frequency_mapping.get(eating_frequency, 3)`. */
  function MealCountFor(eatingFrequency: string): (n: int)
    ensures eatingFrequency !in EatingFrequencyMeals ==> n == DefaultMealCount
    ensures eatingFrequency in EatingFrequencyMeals ==> n == EatingFrequencyMeals[eatingFrequency]
    ensures 1 <= n <= 5
  {
    if eatingFrequency in EatingFrequencyMeals then EatingFrequencyMeals[eatingFrequency] else DefaultMealCount
  }

  /** The model chosen, or the `TypeError` of `None % 2` for a pro user without a regeneration count. */
  datatype ModelChoice = Chosen(model: string) | RegenTypeError

  /**
   * The model choice: free users always get the thinking model; pro users get the pro model on
   * a first request and on every even regeneration, the thinking model on odd ones.
   */
  function SelectMealPlanModel(isPro: bool, regenerateCount: Option<int>): (r: ModelChoice)
    ensures r == RegenTypeError <==> isPro && regenerateCount.None?
    ensures !isPro ==> r == Chosen(ThinkingModel)
    ensures isPro && regenerateCount.Some? ==>
              r.Chosen? && (r.model == ProModel <==> regenerateCount.value % 2 == 0)
    ensures r.Chosen? ==> r.model == ProModel || r.model == ThinkingModel
  {
    if isPro then
      if regenerateCount == Some(0) then Chosen(ProModel)
      else if regenerateCount.None? then RegenTypeError
      else if regenerateCount.value % 2 != 0 then Chosen(ThinkingModel)
      else Chosen(ProModel)
    else
      Chosen(ThinkingModel)
  }

  /** Successive regenerations by a pro user alternate between the two models. */
  lemma {:induction false} RegenerationsAlternate(n: int, k: nat)
    ensures SelectMealPlanModel(true, Some(n + 2 * k)) == SelectMealPlanModel(true, Some(n))
    ensures SelectMealPlanModel(true, Some(n + 1)) != SelectMealPlanModel(true, Some(n))
    decreases k
  {
    if k > 0 {
      RegenerationsAlternate(n, k - 1);
      assert (n + 2 * k) % 2 == (n + 2 * (k - 1)) % 2;
    }
  }

  const ParseFailed := "Failed to parse AI response. Ensure model outputs valid JSON."

  /** The handler's answer: `{"meals": ...}`, `{"error": ...}`, or an exception FastAPI turns into a 500. */
  datatype MealPlanResponse =
    | Meals(meals: Json)
    | MealPlanError(error: string)
    | Unhandled

  /** `re.sub(r"```json\n|\n```", "", text.strip()).strip()`. */
  function CleanMealPlanReply(text: string): string {
    Strip(RemoveFenceLines(Strip(text)))
  }

  /** What the handler makes of the model's reply. */
  function ReadMeals(reply: ModelReply, parse: string -> ParseResult): (r: MealPlanResponse)
    ensures r.Meals? <==> reply.Reply? && parse(CleanMealPlanReply(reply.text)).Parsed?
    ensures r.Meals? ==> r.meals == parse(CleanMealPlanReply(reply.text)).value
    ensures reply.CallFailed? ==> r == MealPlanError(reply.message)
    ensures reply.Reply? && parse(CleanMealPlanReply(reply.text)).DecodeError? ==> r == MealPlanError(ParseFailed)
    ensures r != Unhandled
  {
    match reply
    case CallFailed(message) => MealPlanError(message)
    case Reply(text) =>
      match parse(CleanMealPlanReply(text))
      case DecodeError(_) => MealPlanError(ParseFailed)
      case Parsed(v) => Meals(v)
  }

  /** `generate_meal_plan`: `request.meal_count` is overwritten before anything else happens. */
  method GenerateMealPlan(request: MealRequest, gemini: (string, string) -> ModelReply,
                          parse: string -> ParseResult) returns (r: MealPlanResponse, calls: seq<Call>)
    modifies request
    ensures request.mealCount == Some(MealCountFor(request.eatingFrequency))
    ensures SelectMealPlanModel(request.isPro, request.regenerateCount) == RegenTypeError ==>
              r == Unhandled && calls == []
    ensures SelectMealPlanModel(request.isPro, request.regenerateCount).Chosen? ==>
              var model := SelectMealPlanModel(request.isPro, request.regenerateCount).model;
              calls == [GenerateContent(model, MealPlanPrompt(request))]
              && r == ReadMeals(gemini(model, MealPlanPrompt(request)), parse)
    ensures Contains(MealPlanPrompt(request), MealsPerDayLabel + IntToString(MealCountFor(request.eatingFrequency)))
  {
    request.mealCount := Some(MealCountFor(request.eatingFrequency));
    MealPlanShowsMealsPerDay(RenderMealPlanFields(request));
    var choice := SelectMealPlanModel(request.isPro, request.regenerateCount);
    if choice == RegenTypeError {
      return Unhandled, [];
    }
    var prompt := MealPlanPrompt(request);
    calls := [GenerateContent(choice.model, prompt)];
    r := ReadMeals(gemini(choice.model, prompt), parse);
  }

  /** A plan fenced as ```` ```json ```` on its own lines is cleaned down to its stripped body. */
  lemma FencedPlanCleaned(body: string)
    requires NoBackticks(body)
    ensures CleanMealPlanReply(OpenFenceLine + body + CloseFenceLine) == Strip(body)
  {
    var text := OpenFenceLine + body + CloseFenceLine;
    assert text[0] == '`' && text[|text| - 1] == '`';
    StripUnchanged(text);
    RemoveFenceLinesRoundTrip(body);
  }
}
