# welleats-backend — a verified model of its request logic

welleats-backend is a FastAPI service in front of three outside systems: the Gemini models, Supabase storage and the Spoonacular ingredient API. This project models the deterministic code between those calls:

- the two image caches. Meal images are keyed by a slug of the meal name. Ingredient images are keyed by the name with spaces turned into underscores, and can also come from Spoonacular.
- the handlers that turn a model's reply into a response, for image analysis, meal logs, meal plans and recipes.
- the policy tables, which set the meal count and choose the model variant.
- the five prompt builders.

External services are parameters of the model:

- `Web` carries the HTTP status of a GET, the search reply, a download, the parts of an image-generation reply and the store's answer to an upload.
- `gemini(model, prompt)` is the reply of a text-generation call.
- `parse` is `json.loads`.

Each pipeline and handler returns the external calls it made, in order, as a `seq<Call>`. That trace lets the contracts say both what each branch answers and which later calls never happen.

Modules:

- `Wrappers` and `Text` hold Python string semantics:
  - `strip`, with the whole `str.isspace` set;
  - `lower`;
  - `replace`, leftmost and non-overlapping;
  - `", ".join` and splitting.
- `Json` holds decoded values, truthiness and `.get`.
- `External` holds the oracles, the call trace and the search for the first part with inline data.
- `Fences` holds the two fence cleaners. One is the `replace` chain; the other is the `re.sub` alternation.
- `Prompts` holds the prompt texts. Each prompt is the list of the f-string's segments, with fields rendered as Python renders them (`str` of an `int`, `repr` of a list, the `"None"` placeholders).
- `Schemas` holds the request bodies. `MealRequest` is a class, because the meal-plan handler overwrites its `meal_count` in place.
- `ImageHelper`, `IngredientImage`, `AnalyzeImage`, `MealLog`, `MealPlan` and `Recipe` model one source file each.

Three behaviours of the source are modelled exactly as written:

- After a generated ingredient image fails to upload, `generate_ingredient_image` ends without a `return`, so the endpoint answers `null`. This is `IngredientImage.NullBody`.
- The meal-plan cleaner removes only the exact text "```json" followed by a newline, and a newline followed by "```". A fence without the `json` label keeps its opening backticks (`Fences.UnlabelledFenceSurvives`).
- A pro user's meal-plan request with `regenerate_count` set to `None` raises a `TypeError` at `% 2`, outside the `try`. FastAPI answers that with a 500 (`MealPlan.Unhandled`).

## Model

| member | source | states |
|---|---|---|
| `ImageHelper.Slug` | utils/image_helper.py:21-23 | the slug body holds only lower-case ASCII letters, digits and `_`, and never two `_` in a row |
| `ImageHelper.DeterministicFilename` | utils/image_helper.py:20-24 | the file name ends in `.png`; everything before it is slug characters with no `__` |
| `ImageHelper.CollapsedIsSlug` | utils/image_helper.py:23 | collapsing runs of whitespace, `_` and `-` in text of slug characters and separators yields a slug |
| `ImageHelper.CollapseFixpoint` | utils/image_helper.py:23 | text of slug characters with no `__` is left unchanged by the collapse |
| `ImageHelper.SlugIdempotent` | utils/image_helper.py:21-23 | slugging a slug body returns it unchanged |
| `ImageHelper.SlugOfLower` | utils/image_helper.py:21-23 | lower-casing the name first does not change its slug |
| `ImageHelper.SlugCaseInsensitive` | utils/image_helper.py:20-24 | names equal up to case get the same file name |
| `ImageHelper.SlugDropsPunctuation` | utils/image_helper.py:22 | inserting ASCII characters outside `[\w\s-]` anywhere does not change the slug |
| `ImageHelper.SlugOfWords` | utils/image_helper.py:21-24 | two words with whitespace around them and any run of separators between them become the lower-cased words joined by one `_` |
| `ImageHelper.UpperCaseExample` | utils/image_helper.py:20-24 | "CHICKEN CURRY" gives "chicken_curry.png" |
| `ImageHelper.MixedSeparatorsExample` | utils/image_helper.py:20-24 | "Chicken-_ Curry" gives "chicken_curry.png": mixed case is folded and a mixed run of separators becomes one `_` |
| `ImageHelper.PunctuationExample` | utils/image_helper.py:20-24 | "Chicken Curry!!" gives "chicken_curry.png" |
| `ImageHelper.PaddingExample` | utils/image_helper.py:20-24 | "  Chicken   Curry  " gives "chicken_curry.png" |
| `ImageHelper.MealImageUrl` | utils/image_helper.py:28-29 | the URL is the public URL of the slug file name in the `meal_images` bucket, and it extends the base URL |
| `ImageHelper.SharedCacheEntry` | utils/image_helper.py:27-43 | names equal up to case look up and publish the same URL |
| `ImageHelper.CheckSupabaseImage` | utils/image_helper.py:27-34 | one GET of the meal's URL; the URL is returned exactly when the answer is 200 |
| `ImageHelper.UploadToSupabase` | utils/image_helper.py:36-46 | one upload under the slug key; a URL comes back exactly when the store reports success (not a returned error, not an exception) |
| `ImageHelper.MealImagePrompt` | utils/image_helper.py:52 | the prompt holds the meal name verbatim at a fixed place |
| `ImageHelper.MealImagePromptInjective` | utils/image_helper.py:52 | different meal names give different prompts |
| `ImageHelper.GenerateImageFromGemini` | utils/image_helper.py:51-64 | one call to the image model; the result is the first part's inline data, if any part has some |
| `ImageHelper.GenerateMealImage` | utils/image_helper.py:68-84 | a store hit answers with its URL and makes no other call; otherwise missing or falsy data raises 500 "Gemini failed to generate image"; otherwise a failed upload raises 500 "Image upload failed"; a returned URL is always the meal's store URL |
| `External.FirstInline` | utils/image_helper.py:60-64 | the result is absent exactly when no part has inline data; otherwise it is the data of the first part that has some |
| `External.FirstInlineData` | utils/ingredient_image_utils.py:91-95 | the `for` loop over the parts returns what `FirstInline` specifies |
| `IngredientImage.IngredientFileName` | utils/ingredient_image_utils.py:28 | the key is the name with each space turned into `_`, every other character kept, then `.png` |
| `IngredientImage.FileNameWithoutSpaces` | utils/ingredient_image_utils.py:28 | a name without spaces is its own key body; there is no case folding or punctuation removal |
| `IngredientImage.SpaceUnderscoreCollide` | utils/ingredient_image_utils.py:28 | a space and an underscore at the same place give the same key |
| `IngredientImage.CdnName` | utils/ingredient_image_utils.py:45 | the CDN name is the result name with spaces turned into `-`, then lower-cased; it holds no space and no upper-case letter |
| `IngredientImage.SpoonacularCandidate` | utils/ingredient_image_utils.py:42-46 | a candidate exists exactly when the search answers 200 with a non-empty `results`; it is the first result's CDN URL |
| `IngredientImage.CheckSupabaseImageIngredient` | utils/ingredient_image_utils.py:26-35 | one GET of the ingredient's URL; the URL is returned exactly when the answer is 200 |
| `IngredientImage.FetchSpoonacularImage` | utils/ingredient_image_utils.py:37-56 | the candidate is returned only when its link answers 200; without a candidate only the search is made |
| `IngredientImage.DownloadedContent` | utils/ingredient_image_utils.py:63-70 | bytes come back exactly when the download connects and `raise_for_status` (400 to 599) does not raise |
| `IngredientImage.DownloadImageDataIngredient` | utils/ingredient_image_utils.py:58-70 | an absent or empty URL gives nothing and makes no call |
| `IngredientImage.UploadToSupabaseIngredient` | utils/ingredient_image_utils.py:98-120 | absent or falsy data gives nothing and does not touch the store; otherwise one upload, and a URL exactly on success |
| `IngredientImage.IngredientImagePrompt` | utils/ingredient_image_utils.py:75-83 | the prompt holds the ingredient name verbatim at a fixed place |
| `IngredientImage.GenerateIngredientImageFromGemini` | utils/ingredient_image_utils.py:73-95 | one call to the image model; the result is the first part's inline data |
| `IngredientImage.LiveCandidate` | utils/ingredient_image_utils.py:42-52 | a live image is always the search's candidate |
| `IngredientImage.GenerateIngredientImage` | utils/ingredient_image_utils.py:122-152 | a store hit answers at once. A live Spoonacular image with bytes is copied into the store and answers with the store URL, or with its own link if the copy fails, and nothing is generated. Otherwise the generator decides: nothing or falsy gives 500 "Failed to generate AI image", non-bytes gives 500 "Invalid AI image format", bytes are uploaded and a failed upload gives a `null` body. Each case states its full call trace |
| `Fences.CleanFences` | utils/meal_log_utils.py:42 | no three backticks are left anywhere, and the result has no whitespace at either end |
| `Fences.ReplaceWithoutBackticks` | utils/recipe_utils.py:35 | text without backticks passes a backtick-led replacement unchanged |
| `Fences.CleanFencesPlain` | utils/recipe_utils.py:35 | a reply without backticks is only stripped |
| `Fences.CleanFencesRoundTrip` | utils/meal_log_utils.py:42 | a body without backticks wrapped in a labelled fence comes back stripped |
| `Fences.RemoveFenceLinesPlain` | routes/meal_plan.py:58 | text without backticks passes the regex substitution unchanged |
| `Fences.RemoveClosingLine` | routes/meal_plan.py:58 | a trailing closing fence line is removed and nothing else |
| `Fences.RemoveFenceLinesRoundTrip` | routes/meal_plan.py:58 | a body fenced on its own lines as a labelled fence comes back exactly |
| `Fences.UnlabelledFenceSurvives` | routes/meal_plan.py:58 | with an unlabelled fence only the closing line goes; the opening backticks stay |
| `Prompts.RenderList` | utils/prompts.py:10-11 | a non-empty list renders as its items joined by ", "; an empty or absent one renders as the placeholder |
| `Prompts.RenderListRecoverable` | utils/prompts.py:10-11 | items without commas split back out of the rendered list |
| `Prompts.OrNone` | utils/prompts.py:175 | an absent or empty lifestyle renders as "None"; any other is shown as given |
| `Prompts.IntToString` | utils/prompts.py:14 | `str(n)` is non-empty and starts with `-` exactly when `n` is negative |
| `Prompts.NatToStringRoundTrip` | utils/prompts.py:14 | reading the digits back gives the number |
| `Prompts.IntToStringInjective` | utils/prompts.py:14 | different numbers render differently |
| `Prompts.StrRepr` | utils/prompts.py:60 | `repr` of a string is quoted at both ends with the quote Python picks |
| `Prompts.StrReprPlain` | utils/prompts.py:60 | a string of plain characters is shown between single quotes, unchanged |
| `Prompts.PyListRepr` | utils/prompts.py:60 | `str` of a list is bracketed, with the `repr`s of its items joined by ", " between the brackets; `None` renders as the word |
| `Prompts.PyListReprKeepsAbsence` | utils/prompts.py:60 | unlike the joined rendering, which shows an absent and an empty list alike as "None", `str` renders them differently: "None" and "[]" |
| `Prompts.PyListReprPlainPair` | utils/prompts.py:60 | two items of plain characters render as `['a', 'b']` |
| `Prompts.MealPlanShowsMealGoal` | utils/prompts.py:9 | in the template filled with any rendered fields, the meal goal appears right after its label |
| `Prompts.MealPlanShowsDietaryPreferences` | utils/prompts.py:10 | the rendered preferences appear right after their label |
| `Prompts.MealPlanShowsAllergies` | utils/prompts.py:11 | the rendered allergies appear right after their label |
| `Prompts.MealPlanShowsRegion` | utils/prompts.py:12 | the region appears right after its label |
| `Prompts.MealPlanShowsActivityLevel` | utils/prompts.py:13 | the activity level appears right after its label |
| `Prompts.MealPlanShowsAge` | utils/prompts.py:14 | `str(age)` appears right after its label |
| `Prompts.MealPlanShowsGender` | utils/prompts.py:15 | the gender appears right after its label |
| `Prompts.MealPlanShowsPortionSize` | utils/prompts.py:16 | the portion size appears right after its label |
| `Prompts.MealPlanShowsHealthIssues` | utils/prompts.py:17 | the rendered health issues appear right after their label |
| `Prompts.MealPlanShowsCookingExperience` | utils/prompts.py:18 | the cooking experience appears right after its label |
| `Prompts.MealPlanShowsEatingFrequency` | utils/prompts.py:19 | the eating frequency appears verbatim right after its label |
| `Prompts.MealPlanShowsBmi` | utils/prompts.py:20 | the BMI text, or "None", appears right after its label |
| `Prompts.MealPlanShowsBmiCategory` | utils/prompts.py:20 | the BMI category, or "None", appears right after its label |
| `Prompts.MealPlanShowsMealsPerDay` | utils/prompts.py:21 | `str(meal_count)` appears right after its label |
| `Prompts.MealPlanShowsExclude` | utils/prompts.py:48 | the exclusion rule names the rendered allergies |
| `Prompts.MealPlanShowsStrictly` | utils/prompts.py:49 | the adherence rule names the preferences, or "not restricted" when there are none |
| `Prompts.MealPlanShowsGenerate` | utils/prompts.py:56 | the generation rule names `str(meal_count)` |
| `Prompts.MealPlanPromptShowsProfile` | utils/prompts.py:4-104 | in the prompt built from a request, every field rendered as the f-string renders it (lists joined by ", " or "None", numbers by `str`, absent values as "None", lists by their Python `str`) appears right after its label |
| `Prompts.ValidationPrompt` | utils/prompts.py:107-114 | the description appears verbatim between double quotes at a fixed place |
| `Prompts.ValidationPromptInjective` | utils/prompts.py:107-114 | different descriptions give different validation prompts |
| `Prompts.MealLogPromptEmbedsDescription` | utils/prompts.py:117-126 | the description appears verbatim between triple-quote lines, right after the fixed instructions |
| `Prompts.MealLogPromptInjective` | utils/prompts.py:117-126 | different descriptions give different meal-log prompts |
| `Prompts.MealLogPromptNamesSentinel` | utils/prompts.py:142 | the prompt spells out `"INVALID"` as the reply for no meal, after the description |
| `Prompts.RecipePromptShowsRequest` | utils/prompts.py:168-175 | the ingredients joined by ", ", the tags joined by ", " (empty when there are none) and the lifestyle or "None" each appear right after their label |
| `Prompts.AnalysisPromptNamesFields` | utils/prompts.py:216-272 | the fixed analysis prompt quotes `"meal_data"` and, after it, `"name"` |
| `AnalyzeImage.IndexOf` | routes/analyze_image.py:52 | the first position of a character, absent exactly when it does not occur |
| `AnalyzeImage.LastIndexOf` | routes/analyze_image.py:52 | the last position of a character, absent exactly when it does not occur |
| `AnalyzeImage.JsonSpan` | routes/analyze_image.py:52 | a match exists exactly when some `{` precedes some `}`; it runs from the first `{` to the last `}`, inclusive |
| `AnalyzeImage.JsonSpanExtracts` | routes/analyze_image.py:52 | an object preceded by text without `{` and followed by text without `}` is cut out exactly |
| `AnalyzeImage.CheckAnalysis` | routes/analyze_image.py:62-74 | the parsed value is returned unchanged exactly when it is an object whose `meal_data` is an object with a truthy `name`; a missing or falsy `meal_data`, or a missing or falsy `name`, gives `invalid_input` "Could not confidently identify food in this image."; a non-object value, or a truthy non-object `meal_data`, gives 500 with the `AttributeError` text of `.get` |
| `AnalyzeImage.InspectReply` | routes/analyze_image.py:49-74 | no span gives `invalid_input` "Unable to detect a valid meal in the image."; a span that fails to parse gives 500 "Server error: " with the decoder's message; a parsed span is judged by `CheckAnalysis`. So a reply is accepted exactly when its span parses to an identified meal, and the body is that parse |
| `AnalyzeImage.Analyze` | routes/analyze_image.py:26-74 | an image that fails to decode gives 500 with no call; otherwise one call to the pro model with the analysis prompt. A failed call gives 500 "Server error: " with its message, and a reply gives `InspectReply` of its text. An accepted body is what the parser made of the reply's span and names a meal. Every `invalid_input` error is one of the two messages, and every 500 detail starts with "Server error: " |
| `AnalyzeImage.NoObjectNoParse` | routes/analyze_image.py:52-58 | without a span the parser is never consulted and the answer is "Unable to detect a valid meal in the image." |
| `AnalyzeImage.AcceptsWrappedAnalysis` | routes/analyze_image.py:49-70 | an identified meal object wrapped in brace-free chatter is returned as parsed |
| `MealLog.ReadLog` | utils/meal_log_utils.py:40-58 | a decode error gives 500 "❌ Failed to parse AI response. Try again."; the string "INVALID" gives 200 "❌ Unable to detect a valid meal log."; any other parsed value is returned as the log |
| `MealLog.GenerateMealLog` | utils/meal_log_utils.py:13-64 | the validator (`gemini-1.5-pro`) is always asked first; the generator (the pro model) is asked exactly when the validator says yes; a "no" gives 200 with the retry message; after a yes the generator's reply gives `ReadLog` of its text; a failed validator or generator call gives 500 "❌ Internal Error: " with its message |
| `MealLog.SaysYesPadded` | utils/meal_log_utils.py:22 | `yes` in any case, padded with whitespace, passes the gate |
| `MealLog.SaysYesOnlyYes` | utils/meal_log_utils.py:22 | only a stripped three-letter `yes`, in any case, passes the gate |
| `MealLog.FencedLogAccepted` | utils/meal_log_utils.py:36-53 | after a yes, a fenced reply whose body parses is returned as the log, after both calls |
| `MealPlan.MealCountFor` | routes/meal_plan.py:22-30 | a meal count from the frequency table, 3 for an unknown frequency, always between 1 and 5 |
| `MealPlan.SelectMealPlanModel` | routes/meal_plan.py:31-40 | free users get the thinking model; pro users get the pro model exactly on an even count (0 included) and the thinking model on an odd one; a pro user without a count hits the `TypeError` |
| `MealPlan.RegenerationsAlternate` | routes/meal_plan.py:31-40 | for a pro user, consecutive regeneration counts change the model, and counts two apart keep it |
| `MealPlan.ReadMeals` | routes/meal_plan.py:55-68 | meals come back exactly when the reply arrives and its cleaned text parses; a decode error gives the error "Failed to parse AI response. Ensure model outputs valid JSON."; a failed call returns its message as the error |
| `MealPlan.GenerateMealPlan` | routes/meal_plan.py:19-68 | `meal_count` is overwritten from the table whatever the client sent; the one call uses the selected model and the prompt of the updated request, which shows the new count; a `TypeError` makes no call |
| `MealPlan.FencedPlanCleaned` | routes/meal_plan.py:58 | a plan fenced on its own lines is cleaned to its stripped body |
| `Recipe.RecipeModel` | utils/recipe_utils.py:23 | the pro model exactly when `is_pro` is true; an absent flag counts as false |
| `Recipe.ReadRecipe` | utils/recipe_utils.py:31-56 | a recipe comes back exactly when the cleaned reply parses; on a parse failure the message is "❌ Failed to parse Gemini response."; a failed call gives "❌ Internal Server Error: " and its message |
| `Recipe.GenerateRecipe` | utils/recipe_utils.py:15-56 | exactly one call, with the selected model and the recipe prompt |
| `Recipe.FencedRecipeParsed` | utils/recipe_utils.py:31-42 | a fenced reply is judged by the parse of its stripped body |
| `Schemas.MealRequest.constructor` | schemas/meal_plan_model.py:5-21 | every field holds the value it was built with |

## Left out

- ImageHelper.Slug: Unicode NFKD folding is not modelled. The model drops every non-ASCII character, which is what `encode("ascii", "ignore")` does to text that is already decomposed. An accented letter is dropped rather than reduced to its base letter.
- Text.Lower: only ASCII letters are lower-cased; Python's full Unicode case mapping is not modelled. This is exact for the validator's `yes` test and for slugs, which are ASCII by then. It can differ for a Spoonacular result name with non-ASCII capitals.
- Prompts.StrRepr: every non-ASCII character is treated as printable. Python's `repr` escapes the non-printable ones.
- Schemas.MealRequest.constructor: `bmi` is a float. The model keeps the text Python renders for it, and does no float arithmetic.
- JSON numbers are integers only. The parser is an oracle, so the model does not fix what `json.loads` accepts.
- Pydantic validation and defaults are not modelled. The request types carry the fields only.
- Image decoding, the resizing arithmetic and PIL are not modelled. In `AnalyzeImage.Analyze` they become one optional error message. The image sent with the analysis prompt is not recorded in the call trace.
- Exceptions raised by `requests.get`, by the image model and by `response.candidates[0]` inside the image pipelines are not modelled. They would end those requests with an unhandled 500.
- The Spoonacular search reply is taken already decoded: its status and the `name` of each result. Malformed JSON, or a result without `name`, is not modelled.
- A `None` `response.text` from the text models is not modelled. Every raised call is one `CallFailed` message.
- The upload reply is abstracted to success, a returned error object, or a raised exception. The `isinstance` checks on the two upload helpers differ in the source (`StorageException` against any `Exception`); the model does not distinguish them.
- HTTP status codes are modelled only where the handler sets them. FastAPI's own 200 for a returned dictionary and for the `null` ingredient body is implied.
- Logging (`print`), `async`, the module-level construction of clients from environment variables, and the FastAPI and CORS wiring are not modelled; none of them holds logic. Two first requests racing to generate and upload the same image are concurrency, and are out of scope too.
- The one-line route wrappers are not modelled: routes/image_gen.py, routes/ingredient_image_gen.py, routes/meal_log.py and routes/recipe_gen.py only forward to the functions modelled here.
