/** The daily-summary derivation shared by the home page and the health
    context (src/app/page.tsx and src/context/HealthContext.tsx carry the same
    effect). It reads the index-0 activity and water records, whatever
    `currentDate` is, and divides by the mock user's goals without clamping. */
module Summary {
  import opened Types
  import opened MockData

  /** `value / goal` as an exact ratio. */
  function Ratio(value: int, goal: int): (q: real)
    requires goal > 0
    ensures q * goal as real == value as real
    ensures q >= 1.0 <==> value >= goal
    ensures q >= 0.0 <==> value >= 0
  {
    value as real / goal as real
  }

  /** The summary the effect sets, or None when it leaves the state alone
      (when either list is empty). */
  function Summarize(activities: seq<Activity>, water: seq<WaterIntake>, currentDate: string): (r: Option<DailySummary>)
    ensures r.Some? <==> |activities| > 0 && |water| > 0
    ensures r.Some? ==>
      && r.value.date == currentDate
      && r.value.stepsProgress * MockUser().dailyStepGoal as real == activities[0].steps as real
      && r.value.calorieProgress * MockUser().dailyCalorieGoal as real == activities[0].caloriesBurned as real
      && r.value.waterProgress * MockUser().dailyWaterGoal as real == water[0].intake as real
      && r.value.activeMinutes == activities[0].activeMinutes
  {
    if |activities| > 0 && |water| > 0 then
      var user := MockUser();
      Some(DailySummary(
        currentDate,
        Ratio(activities[0].steps, user.dailyStepGoal),
        Ratio(activities[0].caloriesBurned, user.dailyCalorieGoal),
        Ratio(water[0].intake, user.dailyWaterGoal),
        activities[0].activeMinutes))
    else None
  }

  /** The current date only labels the summary: whatever date is current,
      the ratios and minutes are those of the index-0 records, even when
      those records carry another date. */
  lemma SummaryDateOnlyLabels(activities: seq<Activity>, water: seq<WaterIntake>, a: string, b: string)
    requires |activities| > 0 && |water| > 0
    ensures var s, t := Summarize(activities, water, a).value, Summarize(activities, water, b).value;
      && s.date == a && t.date == b
      && s.stepsProgress == t.stepsProgress && s.calorieProgress == t.calorieProgress
      && s.waterProgress == t.waterProgress && s.activeMinutes == t.activeMinutes
  {
  }

  /** Ratios are not clamped: a day over its goal reports more than 1, and
      a ratio reaches 1 exactly when the value reaches the goal. */
  lemma SummaryUnclamped(activities: seq<Activity>, water: seq<WaterIntake>, currentDate: string)
    requires |activities| > 0 && |water| > 0
    ensures var s := Summarize(activities, water, currentDate).value;
      && (s.stepsProgress >= 1.0 <==> activities[0].steps >= 10000)
      && (s.calorieProgress >= 1.0 <==> activities[0].caloriesBurned >= 2200)
      && (s.waterProgress >= 1.0 <==> water[0].intake >= 2500)
  {
    var u := MockUser();
    var s := Summarize(activities, water, currentDate).value;
    assert s.stepsProgress == Ratio(activities[0].steps, u.dailyStepGoal);
    assert s.calorieProgress == Ratio(activities[0].caloriesBurned, u.dailyCalorieGoal);
    assert s.waterProgress == Ratio(water[0].intake, u.dailyWaterGoal);
  }
}
