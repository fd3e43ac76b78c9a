/** The mock-data generators (src/data/mock-data.ts). Each generator maps a
    list of date strings to one record per date, index by index. The clock
    (`new Date()`) is the parameter `today`, and each `Math.random()` call is a
    draw `u` with 0 <= u < 1 passed in by the caller. */
module MockData {
  import opened Types
  import opened Text
  import opened Calendar

  function MockUser(): User {
    User("user-1", "Test User", "testUser@example.com", Some("/avatars/user1.jpg"),
         Some(165), Some(62), Some(28), 10000, 2200, 2500)
  }

  /** The three goals are positive, so the progress ratios never divide by zero. */
  lemma MockUserGoals()
    ensures MockUser().id == "user-1"
    ensures MockUser().dailyStepGoal == 10000 > 0
    ensures MockUser().dailyCalorieGoal == 2200 > 0
    ensures MockUser().dailyWaterGoal == 2500 > 0
  {
  }

  /** A value of `Math.random()`. */
  predicate IsDraw(u: real) { 0.0 <= u < 1.0 }

  /** `Math.floor(u * span) + low`. */
  function RandomInt(u: real, span: int, low: int): (n: int)
    requires IsDraw(u) && span > 0
    ensures low <= n < low + span
  {
    ScaledDraw(u, span as real);
    (u * span as real).Floor + low
  }

  /** A draw scaled by a positive span stays below the span. */
  lemma ScaledDraw(u: real, span: real)
    requires IsDraw(u) && span > 0.0
    ensures 0.0 <= u * span < span
  {
    assert span - u * span == (1.0 - u) * span;
  }

  /** The four `Math.random()` values one activity record consumes. */
  datatype ActivityDraws = ActivityDraws(steps: real, minutes: real, calories: real, distance: real)

  predicate ValidDraws(d: ActivityDraws) {
    IsDraw(d.steps) && IsDraw(d.minutes) && IsDraw(d.calories) && IsDraw(d.distance)
  }

  /** The `${prefix}${i}` ids the generators give their records. */
  function RecordId(prefix: string, i: nat): string {
    prefix + Decimal(i)
  }

  /** One record: steps in [5000, 9999], minutes in [30, 89], calories in
      [200, 499] and distance in [2, 5) km. */
  function ActivityFor(date: string, i: nat, user: User, d: ActivityDraws): (a: Activity)
    requires ValidDraws(d)
    ensures 5000 <= a.steps <= 9999 && 30 <= a.activeMinutes <= 89
    ensures 200 <= a.caloriesBurned <= 499 && 2.0 <= a.distance < 5.0
  {
    Activity(RecordId("activity-", i), user.id, date,
             RandomInt(d.steps, 5000, 5000),
             RandomInt(d.minutes, 60, 30),
             RandomInt(d.calories, 300, 200),
             d.distance * 3.0 + 2.0)
  }

  /** `generateMockActivities(dates, user)`: record i carries `dates[i]`, the
      user's id and the id `activity-i`; its counts lie in the drawn ranges. */
  function GenerateActivities(dates: seq<string>, user: User, draws: seq<ActivityDraws>): (r: seq<Activity>)
    requires |draws| == |dates| && forall i :: 0 <= i < |draws| ==> ValidDraws(draws[i])
    ensures |r| == |dates|
    ensures forall i :: 0 <= i < |r| ==>
      && r[i].date == dates[i] && r[i].userId == user.id && r[i].id == RecordId("activity-", i)
      && 5000 <= r[i].steps <= 9999
      && 30 <= r[i].activeMinutes <= 89
      && 200 <= r[i].caloriesBurned <= 499
      && 2.0 <= r[i].distance < 5.0
  {
    seq(|dates|, i requires 0 <= i < |dates| => ActivityFor(dates[i], i, user, draws[i]))
  }

  function WaterFor(date: string, i: nat, user: User, u: real): WaterIntake
    requires IsDraw(u)
  {
    WaterIntake(RecordId("water-", i), user.id, date, RandomInt(u, 1000, 1500))
  }

  /** `generateMockWaterIntake(dates, user)`: one reading per date in [1500, 2499] ml. */
  function GenerateWaterIntake(dates: seq<string>, user: User, draws: seq<real>): (r: seq<WaterIntake>)
    requires |draws| == |dates| && forall i :: 0 <= i < |draws| ==> IsDraw(draws[i])
    ensures |r| == |dates|
    ensures forall i :: 0 <= i < |r| ==>
      && r[i].date == dates[i] && r[i].userId == user.id && r[i].id == RecordId("water-", i)
      && 1500 <= r[i].intake <= 2499
  {
    seq(|dates|, i requires 0 <= i < |dates| => WaterFor(dates[i], i, user, draws[i]))
  }

  /** Sum of one nutrient over a list of meals. */
  function SumOf(meals: seq<Meal>, nutrient: Meal -> int): int {
    if meals == [] then 0 else nutrient(meals[0]) + SumOf(meals[1..], nutrient)
  }

  function MealKinds(meals: seq<Meal>): (r: seq<MealType>)
    ensures |r| == |meals|
  {
    if meals == [] then [] else [meals[0].kind] + MealKinds(meals[1..])
  }

  function MealId(i: nat, k: nat): string {
    "meal-" + Decimal(i) + "-" + Decimal(k)
  }

  /** The fixed day of meals of record i. */
  function FixedMeals(i: nat): seq<Meal> {
    [ Meal(MealId(i, 1), "Breakfast", Breakfast, 350, 20, 40, 12, Some("08:00")),
      Meal(MealId(i, 2), "Lunch", Lunch, 650, 35, 65, 22, Some("13:00")),
      Meal(MealId(i, 3), "Dinner", Dinner, 580, 30, 60, 18, Some("19:00")),
      Meal(MealId(i, 4), "Snack", Snack, 200, 10, 15, 8, Some("16:00")) ]
  }

  function NutritionFor(date: string, i: nat, user: User): Nutrition {
    Nutrition(RecordId("nutrition-", i), user.id, date, FixedMeals(i), 1780, 95, 180, 60)
  }

  /** The stored totals of a record agree with its meals. */
  predicate TotalsMatchMeals(n: Nutrition) {
    && n.totalCalories == SumOf(n.meals, (m: Meal) => m.calories)
    && n.totalProtein == SumOf(n.meals, (m: Meal) => m.protein)
    && n.totalCarbs == SumOf(n.meals, (m: Meal) => m.carbs)
    && n.totalFat == SumOf(n.meals, (m: Meal) => m.fat)
  }

  /** 350+650+580+200 = 1780 kcal, 20+35+30+10 = 95 g protein,
      40+65+60+15 = 180 g carbs and 12+22+18+8 = 60 g fat. */
  lemma FixedTotals(date: string, i: nat, user: User)
    ensures TotalsMatchMeals(NutritionFor(date, i, user))
    ensures MealKinds(NutritionFor(date, i, user).meals) == [Breakfast, Lunch, Dinner, Snack]
  {
    var ms := FixedMeals(i);
    SumOfFour(ms, (m: Meal) => m.calories);
    SumOfFour(ms, (m: Meal) => m.protein);
    SumOfFour(ms, (m: Meal) => m.carbs);
    SumOfFour(ms, (m: Meal) => m.fat);
    KindsOfFour(ms);
  }

  /** A four-meal sum, term by term. */
  lemma SumOfFour(ms: seq<Meal>, nutrient: Meal -> int)
    requires |ms| == 4
    ensures SumOf(ms, nutrient)
            == nutrient(ms[0]) + nutrient(ms[1]) + nutrient(ms[2]) + nutrient(ms[3])
  {
    assert ms[3..][1..] == [];
    assert SumOf(ms[3..], nutrient) == nutrient(ms[3]);
    assert ms[2..][1..] == ms[3..];
    assert SumOf(ms[2..], nutrient) == nutrient(ms[2]) + nutrient(ms[3]);
    assert ms[1..][1..] == ms[2..];
    assert SumOf(ms[1..], nutrient) == nutrient(ms[1]) + nutrient(ms[2]) + nutrient(ms[3]);
  }

  /** The kinds of a four-meal list, in order. */
  lemma KindsOfFour(ms: seq<Meal>)
    requires |ms| == 4
    ensures MealKinds(ms) == [ms[0].kind, ms[1].kind, ms[2].kind, ms[3].kind]
  {
    assert ms[3..][1..] == [];
    assert MealKinds(ms[3..]) == [ms[3].kind];
    assert ms[2..][1..] == ms[3..];
    assert MealKinds(ms[2..]) == [ms[2].kind, ms[3].kind];
    assert ms[1..][1..] == ms[2..];
    assert MealKinds(ms[1..]) == [ms[1].kind, ms[2].kind, ms[3].kind];
  }

  /** `generateMockNutrition(dates, user)`: record i carries `dates[i]`, four
      meals typed breakfast, lunch, dinner, snack, and totals equal to the meal sums. */
  function GenerateNutrition(dates: seq<string>, user: User): (r: seq<Nutrition>)
    ensures |r| == |dates|
    ensures forall i :: 0 <= i < |r| ==>
      && r[i].date == dates[i] && r[i].userId == user.id && r[i].id == RecordId("nutrition-", i)
      && MealKinds(r[i].meals) == [Breakfast, Lunch, Dinner, Snack]
      && TotalsMatchMeals(r[i])
  {
    var r := seq(|dates|, i requires 0 <= i < |dates| => NutritionFor(dates[i], i, user));
    assert forall i :: 0 <= i < |r| ==> MealKinds(r[i].meals) == [Breakfast, Lunch, Dinner, Snack]
                                        && TotalsMatchMeals(r[i]) by {
      forall i | 0 <= i < |r| ensures MealKinds(r[i].meals) == [Breakfast, Lunch, Dinner, Snack]
                                      && TotalsMatchMeals(r[i]) {
        FixedTotals(dates[i], i, user);
      }
    }
    r
  }

  /** Ids built from different indices differ. */
  lemma IdsDistinct(prefix: string, i: nat, j: nat)
    requires i != j
    ensures RecordId(prefix, i) != RecordId(prefix, j)
  {
    if prefix + Decimal(i) == prefix + Decimal(j) {
      assert Decimal(i) == (prefix + Decimal(i))[|prefix|..];
      DecimalInjective(i, j);
    }
  }

  /** The week window is renderable: `today` has a four-digit year and six
      days before it is still year 1 or later. */
  predicate WeekInRange(today: Date) {
    InFormatRange(today) && DayNumber(today) - 6 >= DayFromYear(1)
  }

  /** Every day of the window lies in the years `yyyy` renders. */
  lemma WindowInRange(today: Date, i: nat)
    requires WeekInRange(today) && i < 7
    ensures InFormatRange(SubDays(today, i))
  {
    var d := SubDays(today, i);
    YearsFollowDayNumbers(d, today);
    YearAtLeast(d, 1);
  }

  /** `format(subDays(today, i), 'yyyy-MM-dd')`. */
  function PastDate(today: Date, i: nat): (s: string)
    requires WeekInRange(today) && i < 7
    ensures ParseDate(s) == Some(SubDays(today, i))
  {
    WindowInRange(today, i);
    ParseFormat(SubDays(today, i));
    FormatDate(SubDays(today, i))
  }

  /** `getPastWeekDates()`: seven date strings, entry i being `today` minus i
      days; entry 0 is today's. */
  function PastWeekDates(today: Date): (r: seq<string>)
    requires WeekInRange(today)
    ensures |r| == 7
    ensures r[0] == FormatDate(today)
    ensures forall i :: 0 <= i < 7 ==> ParseDate(r[i]) == Some(SubDays(today, i))
  {
    seq(7, i requires 0 <= i < 7 => PastDate(today, i))
  }

  /** The window's dates are distinct and run strictly backwards in time,
      across month and year boundaries alike. */
  lemma PastWeekDecreasing(today: Date, i: int, j: int)
    requires WeekInRange(today) && 0 <= i < j < 7
    ensures PastWeekDates(today)[i] != PastWeekDates(today)[j]
    ensures DayNumber(ParseDate(PastWeekDates(today)[j]).value)
            == DayNumber(ParseDate(PastWeekDates(today)[i]).value) - (j - i)
  {
  }

  /** Days of the current month that the fixed workouts fall on. */
  function WorkoutDays(): seq<int> { [1, 2, 3, 4, 21, 22, 23] }

  /** The `dd` literals of the fixed workout dates, in order. */
  function DayLiterals(): seq<string> { ["01", "02", "03", "04", "21", "22", "23"] }

  /** The k-th fixed session (0-based), on the given date. */
  function WorkoutTemplate(k: int, date: string): Workout
    requires 0 <= k < 7
  {
    match k
    case 0 => Workout("workout-1", "user-1", date, "Morning Run", Running, 35, 320, Some("5K run at the park"))
    case 1 => Workout("workout-2", "user-1", date, "Strength Training", Strength, 45, 280, Some("Upper body workout"))
    case 2 => Workout("workout-3", "user-1", date, "Yoga Session", Yoga, 60, 200, Some("Hatha yoga class"))
    case 3 => Workout("workout-4", "user-1", date, "Cycling", Cycling, 50, 430, Some("Bike ride on the trail"))
    case 4 => Workout("workout-5", "user-1", date, "HIIT Session", Hiit, 30, 350, Some("High intensity interval training"))
    case 5 => Workout("workout-6", "user-1", date, "Evening Walk", Walking, 40, 180, Some("Relaxed walk in the park"))
    case 6 => Workout("workout-7", "user-1", date, "Yoga Session", Other, 50, 220, Some("Group fitness class at the gym"))
  }

  /** The `${yyyy}-${mm}-` prefix of the workout dates: the year unpadded
      and the month padded to two digits. */
  function MonthPrefix(today: Date): string
    requires ValidDate(today) && today.year >= 0
  {
    Decimal(today.year) + "-" + Digits(today.month, 2) + "-"
  }

  /** `mockWorkouts`: seven fixed sessions dated in the month of `today`. */
  function MockWorkouts(today: Date): (ws: seq<Workout>)
    requires ValidDate(today) && today.year >= 0
    ensures |ws| == 7
    ensures forall k :: 0 <= k < 7 ==> ws[k] == WorkoutTemplate(k, MonthPrefix(today) + DayLiterals()[k])
  {
    seq(7, k requires 0 <= k < 7 => WorkoutTemplate(k, MonthPrefix(today) + DayLiterals()[k]))
  }

  /** The k-th template's id ends in the digit k + 1. */
  lemma TemplateId(k: int, date: string)
    requires 0 <= k < 7
    ensures WorkoutTemplate(k, date).id == "workout-" + [DigitChar(k + 1)]
    ensures WorkoutTemplate(k, date).userId == "user-1"
  {
  }

  /** Seven workouts with distinct ids, all for user-1. */
  lemma MockWorkoutIds(today: Date)
    requires ValidDate(today) && today.year >= 0
    ensures |MockWorkouts(today)| == 7
    ensures forall i :: 0 <= i < 7 ==> MockWorkouts(today)[i].userId == "user-1"
    ensures forall i, j :: 0 <= i < j < 7 ==> MockWorkouts(today)[i].id != MockWorkouts(today)[j].id
  {
    var ws := MockWorkouts(today);
    forall i | 0 <= i < 7 ensures ws[i].userId == "user-1" && ws[i].id[8] == DigitChar(i + 1) {
      TemplateId(i, MonthPrefix(today) + DayLiterals()[i]);
    }
    forall i, j | 0 <= i < j < 7 ensures ws[i].id != ws[j].id {
      assert DigitValue(ws[i].id[8]) == i + 1;
    }
  }

  /** The `dd` literal of each workout is the two-digit rendering of its day. */
  lemma DayLiteral(i: int)
    requires 0 <= i < 7
    ensures DayLiterals()[i] == Digits(WorkoutDays()[i], 2)
  {
    match i
    case 0 => TwoDigitLiteral(1, "01");
    case 1 => TwoDigitLiteral(2, "02");
    case 2 => TwoDigitLiteral(3, "03");
    case 3 => TwoDigitLiteral(4, "04");
    case 4 => TwoDigitLiteral(21, "21");
    case 5 => TwoDigitLiteral(22, "22");
    case 6 => TwoDigitLiteral(23, "23");
  }

  /** A two-character literal whose characters are the tens and units
      digits of `n` is the two-digit rendering of `n`. */
  lemma TwoDigitLiteral(n: nat, s: string)
    requires n < 100 && |s| == 2 && s[0] == DigitChar(n / 10) && s[1] == DigitChar(n % 10)
    ensures Digits(n, 2) == s
  {
    TwoDigits(n);
  }

  /** Each workout is dated on its day of the current month, with a
      two-digit month and day. */
  lemma MockWorkoutDay(today: Date, i: int)
    requires ValidDate(today) && today.year >= 0 && 0 <= i < 7
    ensures MockWorkouts(today)[i].date
            == Decimal(today.year) + "-" + Digits(today.month, 2) + "-" + Digits(WorkoutDays()[i], 2)
  {
    DayLiteral(i);
    assert MockWorkouts(today)[i].date == MonthPrefix(today) + DayLiterals()[i] by {
      var k := i;
      assert WorkoutTemplate(k, MonthPrefix(today) + DayLiterals()[k]).date == MonthPrefix(today) + DayLiterals()[k];
    }
  }

  /** In a four-digit year each workout date reads back as its day of today's month. */
  lemma MockWorkoutDates(today: Date, i: int)
    requires ValidDate(today) && 1000 <= today.year <= 9999 && 0 <= i < 7
    ensures MockWorkouts(today)[i].date == FormatDate(Date(today.year, today.month, WorkoutDays()[i]))
    ensures ParseDate(MockWorkouts(today)[i].date) == Some(Date(today.year, today.month, WorkoutDays()[i]))
  {
    var d := Date(today.year, today.month, WorkoutDays()[i]);
    assert 1 <= d.day <= 23 <= DaysInMonth(d.year, d.month);
    MockWorkoutDay(today, i);
    DecimalIsDigits(today.year, 4);
    ParseFormat(d);
  }
}
