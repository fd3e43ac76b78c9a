/** Record shapes of the dashboard (src/types/index.ts). Every record is an
    immutable value once generated. Counts (steps, minutes, calories, grams,
    millilitres) are integers; distance and goal ratios are reals. */
module Types {

  datatype Option<+T> = None | Some(value: T)

  datatype Result<+T, +E> = Success(value: T) | Failure(error: E)

  datatype User = User(
    id: string,
    name: string,
    email: string,
    avatar: Option<string>,
    height: Option<int>,
    weight: Option<int>,
    age: Option<int>,
    dailyStepGoal: int,
    dailyCalorieGoal: int,
    dailyWaterGoal: int)

  datatype Activity = Activity(
    id: string,
    userId: string,
    date: string,
    steps: int,
    activeMinutes: int,
    caloriesBurned: int,
    distance: real)

  datatype WorkoutType =
    | Running | Walking | Cycling | Swimming | Strength | Yoga | Hiit | Other

  datatype Workout = Workout(
    id: string,
    userId: string,
    date: string,
    title: string,
    kind: WorkoutType,
    duration: int,
    caloriesBurned: int,
    description: Option<string>)

  datatype MealType = Breakfast | Lunch | Dinner | Snack

  datatype Meal = Meal(
    id: string,
    name: string,
    kind: MealType,
    calories: int,
    protein: int,
    carbs: int,
    fat: int,
    time: Option<string>)

  datatype Nutrition = Nutrition(
    id: string,
    userId: string,
    date: string,
    meals: seq<Meal>,
    totalCalories: int,
    totalProtein: int,
    totalCarbs: int,
    totalFat: int)

  datatype WaterIntake = WaterIntake(
    id: string,
    userId: string,
    date: string,
    intake: int)

  /** The progress fields hold plain ratios value / goal (not percentages). */
  datatype DailySummary = DailySummary(
    date: string,
    stepsProgress: real,
    calorieProgress: real,
    waterProgress: real,
    activeMinutes: int)

  function ActivityDate(a: Activity): string { a.date }
  function WorkoutDate(w: Workout): string { w.date }
  function NutritionDate(n: Nutrition): string { n.date }
  function WaterDate(w: WaterIntake): string { w.date }
}
