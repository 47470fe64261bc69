/**
 * The five prompt builders. Each prompt is fixed text with rendered fields in between,
 * written as the list of its segments in order; the fields follow Python's rendering
 * rules (`", ".join`, the `"None"` placeholders, `str` of numbers and `repr` of lists).
 */
module Prompts {
  import opened Wrappers
  import opened Text
  import opened Schemas

  // ----- Segments -----

  /** The text of a list of segments, in order. */
  function Concat(xs: seq<string>): string {
    if xs == [] then "" else xs[0] + Concat(xs[1..])
  }

  lemma {:induction false} ConcatAppend(xs: seq<string>, ys: seq<string>)
    ensures Concat(xs + ys) == Concat(xs) + Concat(ys)
    decreases |xs|
  {
    if xs == [] {
      assert xs + ys == ys;
    } else {
      assert (xs + ys)[1..] == xs[1..] + ys;
      ConcatAppend(xs[1..], ys);
    }
  }

  /** Two neighbouring segments appear together in the text, right after the segments before them. */
  lemma ConcatPairAt(xs: seq<string>, i: nat)
    requires i + 1 < |xs|
    ensures At(Concat(xs), xs[i] + xs[i + 1], |Concat(xs[..i])|)
  {
    var pair := [xs[i], xs[i + 1]];
    assert xs == xs[..i] + (pair + xs[i + 2..]);
    ConcatAppend(xs[..i], pair + xs[i + 2..]);
    ConcatAppend(pair, xs[i + 2..]);
    assert Concat(pair) == xs[i] + xs[i + 1] by {
      assert pair[1..][1..] == [];
    }
  }

  lemma ConcatContainsPair(xs: seq<string>, i: nat)
    requires i + 1 < |xs|
    ensures Contains(Concat(xs), xs[i] + xs[i + 1])
  {
    ConcatPairAt(xs, i);
  }

  // ----- Rendered fields -----

  const NoneText := "None"
  const NotRestricted := "not restricted"

  /** `", ".join(xs) if xs else placeholder` for an optional list. */
  function RenderList(xs: Option<seq<string>>, placeholder: string): (r: string)
    ensures xs.None? || xs.value == [] ==> r == placeholder
    ensures xs.Some? && xs.value != [] ==> r == Join(xs.value)
  {
    if xs.Some? && xs.value != [] then Join(xs.value) else placeholder
  }

  /** A rendered non-empty list splits back into its items when no item holds a comma. */
  lemma RenderListRecoverable(xs: seq<string>, placeholder: string)
    requires xs != []
    requires forall k, i :: 0 <= k < |xs| && 0 <= i < |xs[k]| ==> xs[k][i] != ','
    ensures Split(RenderList(Some(xs), placeholder)) == xs
  {
    SplitJoin(xs);
  }

  /** `str(x)` of an optional string: `None` renders as the word. */
  function OptionText(x: Option<string>): string {
    if x.Some? then x.value else NoneText
  }

  /** `x or "None"`: an absent or empty string gives the placeholder. */
  function OrNone(x: Option<string>): (r: string)
    ensures r == NoneText <==> x.None? || x.value == "" || x.value == NoneText
    ensures x.Some? && x.value != "" ==> r == x.value
  {
    if x.Some? && x.value != "" then x.value else NoneText
  }

  function DigitChar(d: nat): (c: char)
    requires d < 10
    ensures IsDigit(c)
  {
    ['0', '1', '2', '3', '4', '5', '6', '7', '8', '9'][d]
  }

  /** The decimal digits of a natural number, most significant first. */
  function NatToString(n: nat): (r: string)
    ensures r != [] && forall i :: 0 <= i < |r| ==> IsDigit(r[i])
    decreases n
  {
    if n < 10 then [DigitChar(n)] else NatToString(n / 10) + [DigitChar(n % 10)]
  }

  /** The value of a string of decimal digits. */
  function DigitsValue(s: string): nat
    requires forall i :: 0 <= i < |s| ==> IsDigit(s[i])
  {
    if s == [] then 0
    else
      var last := s[|s| - 1];
      assert IsDigit(last);
      DigitsValue(s[..|s| - 1]) * 10 + (last as int - '0' as int)
  }

  /** Reading the digits back gives the number. */
  lemma {:induction false} NatToStringRoundTrip(n: nat)
    ensures DigitsValue(NatToString(n)) == n
    decreases n
  {
    var s := NatToString(n);
    if n >= 10 {
      NatToStringRoundTrip(n / 10);
      assert s[..|s| - 1] == NatToString(n / 10);
    }
  }

  /** `str(n)` of an `int`. */
  function IntToString(n: int): (r: string)
    ensures r != [] && (r[0] == '-' <==> n < 0)
  {
    if n < 0 then "-" + NatToString(-n) else NatToString(n)
  }

  /** Different numbers render differently. */
  lemma IntToStringInjective(a: int, b: int)
    requires IntToString(a) == IntToString(b)
    ensures a == b
  {
    NatToStringRoundTrip(if a < 0 then -a else a);
    NatToStringRoundTrip(if b < 0 then -b else b);
    if a < 0 {
      assert IntToString(a)[1..] == NatToString(-a);
      assert IntToString(b)[1..] == NatToString(-b);
    }
  }

  /** `str(x)` of an optional `int`. */
  function OptionInt(x: Option<int>): string {
    if x.Some? then IntToString(x.value) else NoneText
  }

  function HexDigit(d: nat): char
    requires d < 16
  {
    ['0', '1', '2', '3', '4', '5', '6', '7', '8', '9', 'a', 'b', 'c', 'd', 'e', 'f'][d]
  }

  /** The quote `repr` puts around a string: double only when it holds a single quote and no double quote. */
  function ReprQuote(s: string): (q: char)
    ensures q == '"' || q == '\''
  {
    if '\'' in s && '"' !in s then '"' else '\''
  }

  /** How `repr` writes one character inside quotes `q`. */
  function EscapeChar(c: char, q: char): string {
    if c == q || c == '\\' then ['\\', c]
    else if c == '\t' then "\\t"
    else if c == '\n' then "\\n"
    else if c == '\r' then "\\r"
    else if c < ' ' || c == '\U{7F}' then "\\x" + [HexDigit(c as int / 16), HexDigit(c as int % 16)]
    else [c]
  }

  function EscapeAll(s: string, q: char): string {
    if s == [] then "" else EscapeChar(s[0], q) + EscapeAll(s[1..], q)
  }

  /** A character `repr` writes as itself: printable ASCII other than a quote or a backslash, or non-ASCII. */
  predicate PlainChar(c: char) {
    c != '\'' && c != '"' && c != '\\' && (' ' <= c < '\U{7F}' || c > '\U{7F}')
  }

  lemma {:induction false} EscapePlain(s: string, q: char)
    requires (q == '"' || q == '\'') && forall i :: 0 <= i < |s| ==> PlainChar(s[i])
    ensures EscapeAll(s, q) == s
    decreases |s|
  {
    if s != [] {
      EscapePlain(s[1..], q);
    }
  }

  /** `repr(s)` of a string. */
  function StrRepr(s: string): (r: string)
    ensures |r| >= 2 && r[0] == ReprQuote(s) && r[|r| - 1] == ReprQuote(s)
  {
    var q := ReprQuote(s);
    [q] + EscapeAll(s, q) + [q]
  }

  /** A string of plain characters is shown between single quotes, unchanged. */
  lemma StrReprPlain(s: string)
    requires forall i :: 0 <= i < |s| ==> PlainChar(s[i])
    ensures StrRepr(s) == "'" + s + "'"
  {
    assert forall i :: 0 <= i < |s| ==> s[i] != '\'';
    EscapePlain(s, '\'');
  }

  function Reprs(xs: seq<string>): (r: seq<string>)
    ensures |r| == |xs| && forall i :: 0 <= i < |xs| ==> r[i] == StrRepr(xs[i])
  {
    if xs == [] then [] else [StrRepr(xs[0])] + Reprs(xs[1..])
  }

  /** `str(xs)` of an optional list of strings, as an f-string renders it. */
  function PyListRepr(xs: Option<seq<string>>): (r: string)
    ensures xs.None? ==> r == NoneText
    ensures xs.Some? ==> |r| >= 2 && r[0] == '[' && r[|r| - 1] == ']'
    ensures xs.Some? ==> r[1..|r| - 1] == Join(Reprs(xs.value))
  {
    if xs.None? then NoneText else "[" + Join(Reprs(xs.value)) + "]"
  }

  /**
   * Unlike the joined rendering, `str` of a list tells an absent list from an empty one:
   * `None` against `[]`.
   */
  lemma PyListReprKeepsAbsence(xs: seq<string>)
    ensures PyListRepr(None) != PyListRepr(Some(xs))
    ensures PyListRepr(Some([])) == "[]"
    ensures RenderList(None, NoneText) == RenderList(Some([]), NoneText)
  {
    assert PyListRepr(None)[0] == 'N';
  }

  /** Two items of plain characters are listed between single quotes: `['a', 'b']`. */
  lemma PyListReprPlainPair(a: string, b: string)
    requires forall i :: 0 <= i < |a| ==> PlainChar(a[i])
    requires forall i :: 0 <= i < |b| ==> PlainChar(b[i])
    ensures PyListRepr(Some([a, b])) == "['" + a + "', '" + b + "']"
  {
    var qa, qb := "'" + a + "'", "'" + b + "'";
    ReprsPlainPair(a, b);
    assert Join([qa, qb]) == qa + ListSeparator + qb;
    BracketPair(a, b);
  }

  lemma ReprsPlainPair(a: string, b: string)
    requires forall i :: 0 <= i < |a| ==> PlainChar(a[i])
    requires forall i :: 0 <= i < |b| ==> PlainChar(b[i])
    ensures Reprs([a, b]) == ["'" + a + "'", "'" + b + "'"]
  {
    StrReprPlain(a);
    StrReprPlain(b);
  }

  lemma BracketPair(a: string, b: string)
    ensures "[" + ("'" + a + "'" + ListSeparator + "'" + b + "'") + "]" == "['" + a + "', '" + b + "']"
  {
  }

  // ----- The meal plan -----

  const MealGoalLabel := @"    - **Meal Goal:** "
  const DietaryPreferencesLabel := @"    - **Dietary Preferences:** "
  const AllergiesLabel := @"    - **Allergies / Food Restrictions:** "
  const RegionLabel := @"    - **Region / Country:** "
  const ActivityLevelLabel := @"    - **Activity Level:** "
  const AgeLabel := @"    - **Age:** "
  const GenderLabel := @"    - **Gender:** "
  const PortionSizeLabel := @"    - **Portion Size Preference:** "
  const HealthIssuesLabel := @"    - **Health Issues:** "
  const CookingExperienceLabel := @"    - **Cooking Experience:** "
  const EatingFrequencyLabel := @"    - **Eating Frequency:** "
  const BmiLabel := @"    - **BMI:** "
  const BmiCategoryLabel := @", **BMI Category:** "
  const MealsPerDayLabel := @"    - **Meals Per Day:** "
  const ExcludeLabel := @"    - Exclude any ingredients from: **"
  const StrictlyLabel := @"    - Ensure meals are strictly **"
  const GenerateLabel := @"    - Generate **"
  const MealPlanText0 := @"
    You are a world-class AI nutritionist and meal planner. Your job is to generate a **personalized daily meal plan** that aligns with the user's dietary preferences, health conditions, regional food availability, and nutritional needs.

    ### **📌 User Profile & Preferences**
"
  const MealPlanText1 := @" (e.g., weight loss, muscle gain, balanced diet)
"
  const MealPlanText2 := @"
"
  const MealPlanText3 := @"
"
  const MealPlanText4 := @" (Ensure meals use common ingredients in this region)
"
  const MealPlanText5 := @" (e.g., sedentary, moderately active, highly active)
"
  const MealPlanText6 := @"
"
  const MealPlanText7 := @"
"
  const MealPlanText8 := @" (small, balanced, large)
"
  const MealPlanText9 := @"
"
  const MealPlanText10 := @" (beginner, intermediate, expert)
"
  const MealPlanText11 := @" (Three Meals, Two Meals, Intermittent Fasting, Small Frequent Meals, OMAD)
"
  const MealPlanText12 := @" 
"
  const MealPlanText13 := @" (Ensure meal count aligns with eating frequency)
    - **Snack & Sweet Preference:** Include a healthy snack and a dessert based on user goals & restrictions.

    ---

    ### **📌 Meal Plan Generation Rules**
    1️⃣ **Ensure meal diversity & avoid repetition**  
    - Suggest different meal types each day.  
    - Rotate proteins, grains, and vegetables (e.g., oatmeal one day, eggs the next, smoothies another day).  

    2️⃣ **Regional Adaptation & Ingredient Substitution**  
    - If an ingredient is uncommon in **"
  const MealPlanText14 := @"**, suggest a regional substitute.  
    - Use locally available foods whenever possible.  

    3️⃣ **Balance Nutrition & Precise Portion Control**
    - Adjust portion sizes based on **"
  const MealPlanText15 := @"** and **"
  const MealPlanText16 := @"**.
    - Ensure each meal provides **protein, healthy fats, and complex carbs** in balanced amounts.
    - Each ingredient must include a precise weight in **grams (g)**.
    - The **total meal weight (in grams)** must reflect the `"
  const MealPlanText17 := @"`:
        - **Small portion** = Lower total weight (~350–450g per meal)
        - **Balanced portion** = Standard total weight (~500–650g per meal)
        - **Large portion** = Higher total weight (~700–900g per meal)
    - Scale ingredients accordingly to ensure that **nutritional values match the portion size**.
    - Estimate macronutrients (**protein, carbs, fats, and calories**) conservatively. Internally consider a **realistic range**, but return the **upper bound** estimate for each value. This ensures we do not **underestimate** caloric intake (rounding off to nearest integer).
    - The final meal plan must clearly **list each ingredient with an exact gram amount**.

    4️⃣ **Strictly Adhere to Dietary Preferences & Allergies**  
"
  const MealPlanText18 := @"**  
"
  const MealPlanText19 := @"**  

    5️⃣ **Adapt to Cooking Skill Level**  
    - If the user is a **"
  const MealPlanText20 := @"** cook, recommend meals that match their skill level.  
    - Provide **quick meals** for beginners and more elaborate dishes for experienced cooks.  

    6️⃣ **Meals Per Day (Includes Snack & Dessert)**
"
  const MealPlanText21 := @" meals per day** based on **"
  const MealPlanText22 := @"**.
    - If `"
  const MealPlanText23 := @"` is **""two_meals""** or **""intermittent_fasting""**, include only **breakfast & dinner**.
    - If `"
  const MealPlanText24 := @"` is **""one_large_meal""**, make it a nutrient-dense meal covering all macronutrients.
    - Ensure **one healthy snack** and **one dessert** are always included.
    - The **snack and dessert must align with "
  const MealPlanText25 := @", "
  const MealPlanText26 := @", "
  const MealPlanText27 := @", and "
  const MealPlanText28 := @"**.
    - Avoid ingredients that conflict with **allergies** or worsen **health conditions** (e.g., limit sugar for diabetics).
    - The **dessert must be healthy** (e.g., no refined sugars for weight loss or diabetes).
    - **Ensure meal plans are well-balanced with protein, healthy fats, and complex carbs based on the user's dietary goals.**

    7️⃣  🚫 Ingredient & Meal Name Uniqueness

- Do **not** repeat the same meal name, even if it contains different ingredients.
- Keep track of **previous meal names and ingredients** during generation.
- Ensure each meal introduces **at least one new primary ingredient or preparation style**.
- If unsure, ask yourself: *""Does this meal feel similar to a previous one?""* If yes, change it.
- Meals should feel different in terms of cuisine, base ingredients, or flavor profile.



    8️⃣ **Strict JSON Format** (No additional text, only JSON output)  
    - The response must be a JSON array where each object represents a meal:
json
    [
        {
            ""meal"": ""Breakfast"",
            ""name"": ""Oatmeal with Banana & Honey"",
            ""ingredients"": [
                {""name"": ""rolled oats"", ""quantity"": ""50g""},
                {""name"": ""banana"", ""quantity"": ""100g""},
                {""name"": ""honey"", ""quantity"": ""15g""},
                {""name"": ""almond milk"", ""quantity"": ""200ml""}
            ],
            ""calories"": 350,
            ""cooking_instructions"": [
                ""Boil almond milk."",
                ""Add oats & cook for 5 minutes."",
                ""Top with banana & drizzle honey.""
            ],
            ""macros"": {""protein"": 8, ""carbs"": 50, ""fats"": 5},
            ""cooking_time"": ""10 minutes"",
            ""difficulty"": ""easy"",
            ""total_weight"": ""450g""
        },
        ...
    ]
    
// ✅ Notice how lunch and dinner use different proteins and sides

    "

  /** The request's fields as `generate_meal_plan_prompt` renders them into its f-string. */
  datatype MealPlanFields = MealPlanFields(
    mealGoal: string,
    dietaryPreferences: string,
    preferenceRule: string,
    allergies: string,
    healthIssues: string,
    region: string,
    activityLevel: string,
    age: string,
    gender: string,
    portionSize: string,
    cookingExperience: string,
    eatingFrequency: string,
    bmi: string,
    bmiCategory: string,
    mealCount: string,
    dietaryPreferencesRepr: string,
    allergiesRepr: string,
    healthIssuesRepr: string)

  function RenderMealPlanFields(request: MealRequest): MealPlanFields
    reads request
  {
    MealPlanFields(
      request.mealGoal,
      RenderList(request.dietaryPreferences, NoneText),
      RenderList(request.dietaryPreferences, NotRestricted),
      RenderList(request.allergies, NoneText),
      RenderList(request.healthIssues, NoneText),
      request.region,
      request.activityLevel,
      IntToString(request.age),
      request.gender,
      request.portionSize,
      request.cookingExperience,
      request.eatingFrequency,
      OptionText(request.bmi),
      OptionText(request.bmiCategory),
      OptionInt(request.mealCount),
      PyListRepr(request.dietaryPreferences),
      PyListRepr(request.allergies),
      PyListRepr(request.healthIssues))
  }

  /** The segments of the f-string: its fixed text, with the rendered fields in their places. */
  function MealPlanSegments(f: MealPlanFields): seq<string> {
    [MealPlanText0, MealGoalLabel, f.mealGoal, MealPlanText1, DietaryPreferencesLabel] +
    [f.dietaryPreferences, MealPlanText2, AllergiesLabel, f.allergies, MealPlanText3] +
    [RegionLabel, f.region, MealPlanText4, ActivityLevelLabel, f.activityLevel] +
    [MealPlanText5, AgeLabel, f.age, MealPlanText6, GenderLabel] +
    [f.gender, MealPlanText7, PortionSizeLabel, f.portionSize, MealPlanText8] +
    [HealthIssuesLabel, f.healthIssues, MealPlanText9, CookingExperienceLabel, f.cookingExperience] +
    [MealPlanText10, EatingFrequencyLabel, f.eatingFrequency, MealPlanText11, BmiLabel] +
    [f.bmi, BmiCategoryLabel, f.bmiCategory, MealPlanText12, MealsPerDayLabel] +
    [f.mealCount, MealPlanText13, f.region, MealPlanText14, f.portionSize] +
    [MealPlanText15, f.activityLevel, MealPlanText16, f.portionSize, MealPlanText17] +
    [ExcludeLabel, f.allergies, MealPlanText18, StrictlyLabel, f.preferenceRule] +
    [MealPlanText19, f.cookingExperience, MealPlanText20, GenerateLabel, f.mealCount] +
    [MealPlanText21, f.eatingFrequency, MealPlanText22, f.eatingFrequency, MealPlanText23] +
    [f.eatingFrequency, MealPlanText24, f.mealGoal, MealPlanText25, f.dietaryPreferencesRepr] +
    [MealPlanText26, f.allergiesRepr, MealPlanText27, f.healthIssuesRepr, MealPlanText28]
  }

  function FillMealPlan(f: MealPlanFields): string {
    Concat(MealPlanSegments(f))
  }

  /** `generate_meal_plan_prompt(request)`. */
  function MealPlanPrompt(request: MealRequest): string
    reads request
  {
    FillMealPlan(RenderMealPlanFields(request))
  }

  lemma MealPlanShowsMealGoal(f: MealPlanFields)
    ensures Contains(FillMealPlan(f), MealGoalLabel + f.mealGoal)
  {
    ConcatContainsPair(MealPlanSegments(f), 1);
  }

  lemma MealPlanShowsDietaryPreferences(f: MealPlanFields)
    ensures Contains(FillMealPlan(f), DietaryPreferencesLabel + f.dietaryPreferences)
  {
    ConcatContainsPair(MealPlanSegments(f), 4);
  }

  lemma MealPlanShowsAllergies(f: MealPlanFields)
    ensures Contains(FillMealPlan(f), AllergiesLabel + f.allergies)
  {
    ConcatContainsPair(MealPlanSegments(f), 7);
  }

  lemma MealPlanShowsRegion(f: MealPlanFields)
    ensures Contains(FillMealPlan(f), RegionLabel + f.region)
  {
    ConcatContainsPair(MealPlanSegments(f), 10);
  }

  lemma MealPlanShowsActivityLevel(f: MealPlanFields)
    ensures Contains(FillMealPlan(f), ActivityLevelLabel + f.activityLevel)
  {
    ConcatContainsPair(MealPlanSegments(f), 13);
  }

  lemma MealPlanShowsAge(f: MealPlanFields)
    ensures Contains(FillMealPlan(f), AgeLabel + f.age)
  {
    ConcatContainsPair(MealPlanSegments(f), 16);
  }

  lemma MealPlanShowsGender(f: MealPlanFields)
    ensures Contains(FillMealPlan(f), GenderLabel + f.gender)
  {
    ConcatContainsPair(MealPlanSegments(f), 19);
  }

  lemma MealPlanShowsPortionSize(f: MealPlanFields)
    ensures Contains(FillMealPlan(f), PortionSizeLabel + f.portionSize)
  {
    ConcatContainsPair(MealPlanSegments(f), 22);
  }

  lemma MealPlanShowsHealthIssues(f: MealPlanFields)
    ensures Contains(FillMealPlan(f), HealthIssuesLabel + f.healthIssues)
  {
    ConcatContainsPair(MealPlanSegments(f), 25);
  }

  lemma MealPlanShowsCookingExperience(f: MealPlanFields)
    ensures Contains(FillMealPlan(f), CookingExperienceLabel + f.cookingExperience)
  {
    ConcatContainsPair(MealPlanSegments(f), 28);
  }

  lemma MealPlanShowsEatingFrequency(f: MealPlanFields)
    ensures Contains(FillMealPlan(f), EatingFrequencyLabel + f.eatingFrequency)
  {
    ConcatContainsPair(MealPlanSegments(f), 31);
  }

  lemma MealPlanShowsBmi(f: MealPlanFields)
    ensures Contains(FillMealPlan(f), BmiLabel + f.bmi)
  {
    ConcatContainsPair(MealPlanSegments(f), 34);
  }

  lemma MealPlanShowsBmiCategory(f: MealPlanFields)
    ensures Contains(FillMealPlan(f), BmiCategoryLabel + f.bmiCategory)
  {
    ConcatContainsPair(MealPlanSegments(f), 36);
  }

  lemma MealPlanShowsMealsPerDay(f: MealPlanFields)
    ensures Contains(FillMealPlan(f), MealsPerDayLabel + f.mealCount)
  {
    ConcatContainsPair(MealPlanSegments(f), 39);
  }

  lemma MealPlanShowsExclude(f: MealPlanFields)
    ensures Contains(FillMealPlan(f), ExcludeLabel + f.allergies)
  {
    ConcatContainsPair(MealPlanSegments(f), 50);
  }

  lemma MealPlanShowsStrictly(f: MealPlanFields)
    ensures Contains(FillMealPlan(f), StrictlyLabel + f.preferenceRule)
  {
    ConcatContainsPair(MealPlanSegments(f), 53);
  }

  lemma MealPlanShowsGenerate(f: MealPlanFields)
    ensures Contains(FillMealPlan(f), GenerateLabel + f.mealCount)
  {
    ConcatContainsPair(MealPlanSegments(f), 58);
  }

  /** Every profile line of the prompt shows its field, rendered, right after its label. */
  lemma MealPlanPromptShowsProfile(request: MealRequest)
    ensures Contains(MealPlanPrompt(request), MealGoalLabel + request.mealGoal)
    ensures Contains(MealPlanPrompt(request), DietaryPreferencesLabel + RenderList(request.dietaryPreferences, NoneText))
    ensures Contains(MealPlanPrompt(request), AllergiesLabel + RenderList(request.allergies, NoneText))
    ensures Contains(MealPlanPrompt(request), RegionLabel + request.region)
    ensures Contains(MealPlanPrompt(request), ActivityLevelLabel + request.activityLevel)
    ensures Contains(MealPlanPrompt(request), AgeLabel + IntToString(request.age))
    ensures Contains(MealPlanPrompt(request), GenderLabel + request.gender)
    ensures Contains(MealPlanPrompt(request), PortionSizeLabel + request.portionSize)
    ensures Contains(MealPlanPrompt(request), HealthIssuesLabel + RenderList(request.healthIssues, NoneText))
    ensures Contains(MealPlanPrompt(request), CookingExperienceLabel + request.cookingExperience)
    ensures Contains(MealPlanPrompt(request), EatingFrequencyLabel + request.eatingFrequency)
    ensures Contains(MealPlanPrompt(request), BmiLabel + OptionText(request.bmi))
    ensures Contains(MealPlanPrompt(request), BmiCategoryLabel + OptionText(request.bmiCategory))
    ensures Contains(MealPlanPrompt(request), MealsPerDayLabel + OptionInt(request.mealCount))
    ensures Contains(MealPlanPrompt(request), ExcludeLabel + RenderList(request.allergies, NoneText))
    ensures Contains(MealPlanPrompt(request), StrictlyLabel + RenderList(request.dietaryPreferences, NotRestricted))
    ensures Contains(MealPlanPrompt(request), GenerateLabel + OptionInt(request.mealCount))
  {
    var f := RenderMealPlanFields(request);
    MealPlanShowsMealGoal(f);
    MealPlanShowsDietaryPreferences(f);
    MealPlanShowsAllergies(f);
    MealPlanShowsRegion(f);
    MealPlanShowsActivityLevel(f);
    MealPlanShowsAge(f);
    MealPlanShowsGender(f);
    MealPlanShowsPortionSize(f);
    MealPlanShowsHealthIssues(f);
    MealPlanShowsCookingExperience(f);
    MealPlanShowsEatingFrequency(f);
    MealPlanShowsBmi(f);
    MealPlanShowsBmiCategory(f);
    MealPlanShowsMealsPerDay(f);
    MealPlanShowsExclude(f);
    MealPlanShowsStrictly(f);
    MealPlanShowsGenerate(f);
  }

  // ----- The meal-log validator -----

  const ValidationHead := @"
You are a strict meal log validator. Respond with only one word: ""yes"" or ""no"".

Here is the user's input:
"
  const ValidationTail := @"

Does it look like a valid meal description (containing food items, what they ate, or meal-related info)?
        "

  /** `get_validation_prompt`: the description, verbatim, in double quotes. */
  function ValidationPrompt(description: string): (p: string)
    ensures |p| == |ValidationHead| + |description| + 2 + |ValidationTail|
    ensures p[|ValidationHead|] == '"' && p[|ValidationHead| + 1 + |description|] == '"'
    ensures p[|ValidationHead| + 1..|ValidationHead| + 1 + |description|] == description
  {
    ValidationHead + "\"" + description + "\"" + ValidationTail
  }

  /** The validator never sees two descriptions under the same prompt. */
  lemma ValidationPromptInjective(a: string, b: string)
    requires ValidationPrompt(a) == ValidationPrompt(b)
    ensures a == b
  {
  }

  // ----- The meal-log generator -----

  /** The reply the meal-log prompt asks for when no meal can be extracted. */
  const InvalidSentinel := "INVALID"
  const QuotedSentinel := "\"" + InvalidSentinel + "\""
  const DescriptionOpen := "\"\"\"\n"
  const DescriptionClose := "\n\"\"\""

  const MealLogHead := @"
You are a certified AI nutritionist trained to analyze real-world meal descriptions. Your job is to extract structured, accurate nutritional information from a user's free-text meal entry.

---

The user described their meal as:
"
  const MealLogMiddle := @"

---

### 🍽️ Instructions:

1. Parse the ingredients and estimate **quantities in grams or standard servings** (e.g., 1 cup, 2 slices).
   - If no quantity is mentioned, **assume a typical portion size** based on common meal patterns.
2. Estimate **total calories** and **macronutrients** (protein, carbs, fats) for the entire meal.  
   - Use realistic nutritional values based on **USDA/FoodData Central or similar databases**.
   - Internally estimate a realistic **range** of values for each nutrient and total calories based on ingredients, portion sizes, and preparation.
- **Return only the upper bound** of your estimate — this ensures we do not underestimate anything.

   - Avoid generic underestimation. Assume full servings, sauces, oils, and garnishes if likely.
3. Estimate the **total weight of the dish** in grams.
4. Return a **reasonable cooking time** and **difficulty level** (easy, intermediate, expert).
5. If no valid meal can be confidently extracted, respond with the exact string `"
  const MealLogTail := @"`.

---

🎯 Output must be returned in **strict JSON** format like below:

```json
{
  ""name"": ""Grilled Chicken with Brown Rice"",
  ""ingredients"": [
    { ""name"": ""Grilled chicken breast"", ""quantity"": ""150g"" },
    { ""name"": ""Brown rice"", ""quantity"": ""1 cup (195g)"" },
    { ""name"": ""Olive oil"", ""quantity"": ""1 tbsp"" }
  ],
  ""calories"": 750,
  ""macros"": {
    ""protein"": 50,
    ""carbs"": 50,
    ""fats"": 30
  },
  ""cooking_time"": ""25 minutes"",
  ""difficulty"": ""easy"",
  ""total_weight"": ""500g""
}
"

  /** The fixed text before the description, and after it. */
  const MealLogOpening := MealLogHead + DescriptionOpen
  const MealLogRest := MealLogMiddle + QuotedSentinel + MealLogTail
  const MealLogClosing := DescriptionClose + MealLogRest

  /** `get_meal_log_generation_prompt`: the description, verbatim, between triple-quote lines. */
  function MealLogPrompt(description: string): string {
    MealLogOpening + description + MealLogClosing
  }

  /** A text put between two others sits right after the first. */
  lemma Embedded(pre: string, x: string, post: string)
    ensures At(pre + x + post, x, |pre|)
  {
    assert (pre + x + post)[|pre|..|pre| + |x|] == x;
  }

  /** A text between two others is determined by the whole. */
  lemma EmbeddedInjective(pre: string, a: string, b: string, post: string)
    requires pre + a + post == pre + b + post
    ensures a == b
  {
    Embedded(pre, a, post);
    Embedded(pre, b, post);
    assert |pre + a + post| == |pre| + |a| + |post|;
    assert |pre + b + post| == |pre| + |b| + |post|;
  }

  /** An occurrence inside the second part of a text is an occurrence in the whole. */
  lemma AtAfter(pre: string, s: string, x: string, k: int)
    requires At(s, x, k)
    ensures At(pre + s, x, |pre| + k)
  {
    assert (pre + s)[|pre| + k..|pre| + k + |x|] == s[k..k + |x|];
  }

  /** The opening and closing marks sit around the text between them. */
  lemma Framed(head: string, open: string, x: string, close: string, post: string)
    ensures At(head + open + x + (close + post), open + x + close, |head|)
  {
    assert head + open + x + (close + post) == head + (open + x + close) + post;
    Embedded(head, open + x + close, post);
  }

  /** The description appears verbatim between the triple-quote lines, right after the instructions. */
  lemma MealLogPromptEmbedsDescription(description: string)
    ensures At(MealLogPrompt(description), description, |MealLogOpening|)
    ensures At(MealLogPrompt(description), DescriptionOpen + description + DescriptionClose, |MealLogHead|)
  {
    Embedded(MealLogOpening, description, MealLogClosing);
    Framed(MealLogHead, DescriptionOpen, description, DescriptionClose, MealLogRest);
  }

  /** The generator never sees two descriptions under the same prompt. */
  lemma MealLogPromptInjective(a: string, b: string)
    requires MealLogPrompt(a) == MealLogPrompt(b)
    ensures a == b
  {
    EmbeddedInjective(MealLogOpening, a, b, MealLogClosing);
  }

  /** The prompt spells out the exact reply that signals an invalid meal, after the description. */
  lemma MealLogPromptNamesSentinel(description: string)
    ensures At(MealLogPrompt(description), QuotedSentinel, |MealLogOpening| + |description| + |DescriptionClose| + |MealLogMiddle|)
  {
    ClosingNamesSentinel();
    var k := |DescriptionClose| + |MealLogMiddle|;
    AtAfter(MealLogOpening + description, MealLogClosing, QuotedSentinel, k);
    assert |MealLogOpening + description| + k == |MealLogOpening| + |description| + |DescriptionClose| + |MealLogMiddle|;
  }

  lemma ClosingNamesSentinel()
    ensures At(MealLogClosing, QuotedSentinel, |DescriptionClose| + |MealLogMiddle|)
  {
    Embedded(MealLogMiddle, QuotedSentinel, MealLogTail);
    AtAfter(DescriptionClose, MealLogRest, QuotedSentinel, |MealLogMiddle|);
  }

  // ----- The recipe -----

  const IngredientsLabel := @"- **Ingredients**: "
  const TagsLabel := @"- **Tags**: "
  const LifestyleLabel := @"- **Lifestyle**: "
  const RecipeText0 := @"
You are a professional chef and nutritionist. Help users create a healthy, creative recipe based on leftover ingredients.

The user has provided:
"
  const RecipeText1 := @"
"
  const RecipeText2 := @"
"
  const RecipeText3 := @"

📌 Your tasks:
- Suggest a **creative recipe** using ONLY or mostly the listed ingredients.
- Assume the user has basic kitchen & pantry items (e.g., salt, pepper, oil).
- Respect **tags** (e.g., under 30 min, high protein) and **lifestyle** (e.g., vegan).

🔒 **Strict Output Rules**:
- **Estimate** realistic macros (`protein`, `carbs`, `fats`) and `calories` based on common ingredient knowledge.
- **Only** set a macro value to `0` if it is truly negligible or missing.
- Always output `macros` (`protein`, `carbs`, `fats`) and `calories` as **integers** (no decimals, no strings).
- Respond only with **pure JSON** (no markdown, no explanations, no comments).

📦 Output format:
```json
{
  ""name"": ""Zucchini Feta Omelette"",
  ""ingredients"": [
    { ""name"": ""zucchini"", ""quantity"": ""100g"" },
    { ""name"": ""feta cheese"", ""quantity"": ""50g"" },
    { ""name"": ""eggs"", ""quantity"": ""2 large"" }
  ],
  ""instructions"": [
    ""Grate the zucchini and squeeze out excess moisture."",
    ""Beat the eggs with crumbled feta and zucchini."",
    ""Cook the mixture in a non-stick pan for 5–7 minutes."",
    ""Fold and serve warm.""
  ],
  ""estimated_time"": ""10 minutes"",
  ""difficulty"": ""easy"",
  ""calories"": 350,
  ""macros"": {
    ""protein"": 25,
    ""carbs"": 10,
    ""fats"": 20
  },
  ""servings"": 2
}

"

  /** `generate_recipe_prompt`: the segments of the f-string, with the request's fields rendered. */
  function RecipeSegments(request: RecipeRequest): seq<string> {
    [
      RecipeText0,
      IngredientsLabel,
      Join(request.ingredients),
      RecipeText1,
      TagsLabel,
      Join(request.tags),
      RecipeText2,
      LifestyleLabel,
      OrNone(request.lifestyle),
      RecipeText3]
  }

  function RecipePrompt(request: RecipeRequest): string {
    Concat(RecipeSegments(request))
  }

  /** The ingredients, tags and lifestyle each appear, rendered, right after their label. */
  lemma RecipePromptShowsRequest(request: RecipeRequest)
    ensures Contains(RecipePrompt(request), IngredientsLabel + Join(request.ingredients))
    ensures Contains(RecipePrompt(request), TagsLabel + Join(request.tags))
    ensures Contains(RecipePrompt(request), LifestyleLabel + OrNone(request.lifestyle))
  {
    var xs := RecipeSegments(request);
    ConcatContainsPair(xs, 1);
    ConcatContainsPair(xs, 4);
    ConcatContainsPair(xs, 7);
  }

  // ----- The image analysis -----

  /** The fields the analysis handler reads back from the reply. */
  const MealDataField := "meal_data"
  const NameField := "name"

  const AnalysisText0 := @"
You are a nutrition and food vision expert. Given a real-world food image, analyze it and return structured meal data that matches a specific schema for logging meals.

---

Please perform the following:

1. Assign a **unified meal name** for the dish (e.g., ""Grilled Chicken and Jalapeño Sandwich on Brown Bread, mustard sauce, mayo, cheese, cucumber and so on and so forth"").


2. Identify **key ingredients** and estimate their quantities (e.g., ""Grilled chicken breast"", ""Brown bread"", ""Jalapeño slices"").

3. Estimate **macronutrients** for the full meal:
   - fats (g)
   - carbs (g)
   - protein (g)

4. Estimate **total calories** and **total weight** (in grams) for the entire meal.

5. Suggest `""difficulty""`level for cooking this dish and best estimation for `""cooking_time""`.

---

🎯 Format your response in **strict JSON** using this structure:

```json
{
  "
  const AnalysisText1 := @": {
    ""meal"": ""Snack"",
    "
  const AnalysisText2 := @": ""Grilled Chicken and Jalapeño Sandwich on Brown Bread"",
    ""macros"": {
      ""fats"": 15,
      ""carbs"": 45,
      ""protein"": 30
    },
    ""calories"": 420,
    ""difficulty"": easy,
    ""ingredients"": [
      {
        ""name"": ""Grilled chicken breast"",
        ""quantity"": ""100g""
      },
      {
        ""name"": ""Jalapeño slices"",
        ""quantity"": ""20g""
      },
      {
        ""name"": ""Brown bread"",
        ""quantity"": ""2 slices (60g)""
      }
    ],
    ""cooking_time"": 30 minutes,
    ""total_weight"": ""180g""
  },
  ""description"": ""A hearty sandwich made with grilled chicken, jalapeño slices, and two slices of toasted brown bread. Served on a white plate with light garnishing. Ideal for a quick high-protein snack.""
}
"

  /** The two field names as the prompt's sample reply quotes them. */
  const MealDataKey := "\"" + MealDataField + "\""
  const NameKey := "\"" + NameField + "\""

  /** `generate_ai_analysis_prompt`: fixed text. */
  const AnalysisPrompt := AnalysisText0 + MealDataKey + AnalysisText1 + NameKey + AnalysisText2

  /** The second and fourth of five texts, put together, sit where their predecessors end. */
  lemma SecondAndFourth(a: string, b: string, c: string, d: string, e: string)
    ensures At(a + b + c + d + e, b, |a|)
    ensures At(a + b + c + d + e, d, |a| + |b| + |c|)
  {
    Embedded(a, b, c + d + e);
    assert a + b + c + d + e == a + b + (c + d + e);
    Embedded(a + b + c, d, e);
  }

  /** The analysis prompt asks for the object member the handler inspects, and for its `name` after it. */
  lemma AnalysisPromptNamesFields()
    ensures At(AnalysisPrompt, MealDataKey, |AnalysisText0|)
    ensures At(AnalysisPrompt, NameKey, |AnalysisText0| + |MealDataKey| + |AnalysisText1|)
  {
    SecondAndFourth(AnalysisText0, MealDataKey, AnalysisText1, NameKey, AnalysisText2);
  }
}
