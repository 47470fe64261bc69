/**
 * The request bodies of the meal-plan and recipe endpoints. A meal request is an object
 * whose `meal_count` the handler overwrites; everything else about it is fixed once built.
 */
module Schemas {
  import opened Wrappers

  /** `MealRequest`: a user profile plus the plan's policy inputs. */
  class MealRequest {
    const mealGoal: string
    const dietaryPreferences: Option<seq<string>>
    const allergies: Option<seq<string>>
    const region: string
    const activityLevel: string
    const age: int
    const gender: string
    const portionSize: string
    const cookingExperience: string
    const healthIssues: Option<seq<string>>
    const eatingFrequency: string
    /** Filled in by the handler from the eating frequency. */
    var mealCount: Option<int>
    /** `bmi` is a float; the model keeps the text Python renders for it. */
    const bmi: Option<string>
    const bmiCategory: Option<string>
    const isPro: bool
    const regenerateCount: Option<int>

    constructor(mealGoal: string, dietaryPreferences: Option<seq<string>>, allergies: Option<seq<string>>,
                region: string, activityLevel: string, age: int, gender: string, portionSize: string,
                cookingExperience: string, healthIssues: Option<seq<string>>, eatingFrequency: string,
                mealCount: Option<int>, bmi: Option<string>, bmiCategory: Option<string>,
                isPro: bool, regenerateCount: Option<int>)
      ensures this.mealGoal == mealGoal && this.dietaryPreferences == dietaryPreferences
      ensures this.allergies == allergies && this.region == region && this.activityLevel == activityLevel
      ensures this.age == age && this.gender == gender && this.portionSize == portionSize
      ensures this.cookingExperience == cookingExperience && this.healthIssues == healthIssues
      ensures this.eatingFrequency == eatingFrequency && this.mealCount == mealCount
      ensures this.bmi == bmi && this.bmiCategory == bmiCategory
      ensures this.isPro == isPro && this.regenerateCount == regenerateCount
    {
      this.mealGoal := mealGoal;
      this.dietaryPreferences := dietaryPreferences;
      this.allergies := allergies;
      this.region := region;
      this.activityLevel := activityLevel;
      this.age := age;
      this.gender := gender;
      this.portionSize := portionSize;
      this.cookingExperience := cookingExperience;
      this.healthIssues := healthIssues;
      this.eatingFrequency := eatingFrequency;
      this.mealCount := mealCount;
      this.bmi := bmi;
      this.bmiCategory := bmiCategory;
      this.isPro := isPro;
      this.regenerateCount := regenerateCount;
    }
  }

  /** `RecipeRequest`: leftover ingredients, tags, an optional lifestyle and an optional pro flag. */
  datatype RecipeRequest = RecipeRequest(
    ingredients: seq<string>,
    tags: seq<string>,
    lifestyle: Option<string>,
    isPro: Option<bool>)
}
