/** The health context (src/context/HealthContext.tsx): a provider whose
    state is filled by a mount effect and a summary effect, and the
    `useHealth` accessor that fails fast outside a provider. */
module HealthContext {
  import opened Types
  import opened Lookup
  import opened MockData
  import opened Summary

  /** What the provider hands to its consumers. `dailySummary` is passed on
      as it is (the type cast does not turn a missing summary into one). */
  datatype ContextValue = ContextValue(
    user: User,
    activities: seq<Activity>,
    workouts: seq<Workout>,
    nutrition: seq<Nutrition>,
    waterIntake: seq<WaterIntake>,
    dailySummary: Option<DailySummary>,
    currentDate: string)

  /** The random draws one mount consumes: one set per date and generator. */
  predicate DrawsFor(dates: seq<string>, draws: seq<ActivityDraws>, waterDraws: seq<real>) {
    && |draws| == |dates| && (forall i :: 0 <= i < |draws| ==> ValidDraws(draws[i]))
    && |waterDraws| == |dates| && (forall i :: 0 <= i < |waterDraws| ==> IsDraw(waterDraws[i]))
  }

  /** The records one mount generates: one shared list of dates feeds all
      three generators. */
  datatype Week = Week(
    activities: seq<Activity>,
    nutrition: seq<Nutrition>,
    waterIntake: seq<WaterIntake>)

  function GenerateWeek(dates: seq<string>, draws: seq<ActivityDraws>, waterDraws: seq<real>): (w: Week)
    requires DrawsFor(dates, draws, waterDraws)
    ensures |w.activities| == |w.nutrition| == |w.waterIntake| == |dates|
    ensures forall i :: 0 <= i < |dates| ==>
      w.activities[i].date == w.nutrition[i].date == w.waterIntake[i].date == dates[i]
    ensures forall i :: 0 <= i < |dates| ==>
      w.activities[i].userId == w.nutrition[i].userId == w.waterIntake[i].userId == MockUser().id
  {
    Week(GenerateActivities(dates, MockUser(), draws),
         GenerateNutrition(dates, MockUser()),
         GenerateWaterIntake(dates, MockUser(), waterDraws))
  }

  class HealthProvider {
    var currentDate: string
    const user: User
    var activities: seq<Activity>
    const workouts: seq<Workout>
    var nutrition: seq<Nutrition>
    var waterIntake: seq<WaterIntake>
    var dailySummary: Option<DailySummary>

    /** The initial state: empty lists, no summary, no current date. */
    constructor ()
      ensures currentDate == "" && user == MockUser() && workouts == []
      ensures activities == [] && nutrition == [] && waterIntake == []
      ensures dailySummary == None
    {
      currentDate := "";
      user := MockUser();
      activities := [];
      workouts := [];
      nutrition := [];
      waterIntake := [];
      dailySummary := None;
    }

    /** The mount effect: the week's dates (`getPastWeekDates()`, read off
        the clock) feed all three generators, and the current date becomes
        the first of them, today's. */
    method Generate(dates: seq<string>, draws: seq<ActivityDraws>, waterDraws: seq<real>)
      requires |dates| > 0 && DrawsFor(dates, draws, waterDraws)
      modifies this
      ensures var w := GenerateWeek(dates, draws, waterDraws);
        && activities == w.activities && nutrition == w.nutrition
        && waterIntake == w.waterIntake && currentDate == dates[0]
      ensures dailySummary == old(dailySummary)
    {
      var w := GenerateWeek(dates, draws, waterDraws);
      activities, nutrition, waterIntake := w.activities, w.nutrition, w.waterIntake;
      currentDate := dates[0];
    }

    /** The summary effect: sets the summary when both lists are non-empty
        and otherwise leaves the previous value in place. */
    method DeriveSummary()
      modifies this`dailySummary
      ensures |activities| > 0 && |waterIntake| > 0 ==>
        dailySummary == Summarize(activities, waterIntake, currentDate)
      ensures !(|activities| > 0 && |waterIntake| > 0) ==> dailySummary == old(dailySummary)
    {
      var s := Summarize(activities, waterIntake, currentDate);
      if s.Some? {
        dailySummary := s;
      }
    }

    /** The exposed `setCurrentDate`. */
    method SetCurrentDate(date: string)
      modifies this`currentDate
      ensures currentDate == date
    {
      currentDate := date;
    }

    function Value(): (v: ContextValue)
      reads this
      ensures v.dailySummary == dailySummary && v.user == user && v.workouts == workouts
    {
      ContextValue(user, activities, workouts, nutrition, waterIntake, dailySummary, currentDate)
    }
  }

  const MissingProvider := "useHealth must be used within a HealthProvider"

  /** `useHealth()`: the provider's value, or the fail-fast error outside one. */
  function UseHealth(context: Option<ContextValue>): (r: Result<ContextValue, string>)
    ensures r.Failure? <==> context.None?
    ensures r.Failure? ==> r.error == MissingProvider
    ensures r.Success? ==> r.value == context.value
  {
    match context
    case None => Failure(MissingProvider)
    case Some(v) => Success(v)
  }

  /** Right after mounting, the index-0 summary agrees with the date-matched
      lookups: the records for the current date are the first ones, and the
      summary's ratios are those of the records `find` returns for it. */
  lemma MountedSummaryMatchesLookups(dates: seq<string>, draws: seq<ActivityDraws>, waterDraws: seq<real>)
    requires |dates| > 0 && DrawsFor(dates, draws, waterDraws)
    ensures var w := GenerateWeek(dates, draws, waterDraws);
      var s := Summarize(w.activities, w.waterIntake, dates[0]);
      && FindDate(w.activities, ActivityDate, dates[0]) == Some(w.activities[0])
      && FindDate(w.waterIntake, WaterDate, dates[0]) == Some(w.waterIntake[0])
      && FindDate(w.nutrition, NutritionDate, dates[0]) == Some(w.nutrition[0])
      && s.Some? && s.value.date == w.activities[0].date == w.waterIntake[0].date
      && s.value.stepsProgress * 10000.0 == w.activities[0].steps as real
      && s.value.calorieProgress * 2200.0 == w.activities[0].caloriesBurned as real
      && s.value.waterProgress * 2500.0 == w.waterIntake[0].intake as real
  {
    var w := GenerateWeek(dates, draws, waterDraws);
    FindFirst(w.activities, ActivityDate, dates[0]);
    FindFirst(w.waterIntake, WaterDate, dates[0]);
    FindFirst(w.nutrition, NutritionDate, dates[0]);
  }

  /** The provider after its first commit. React runs the mount effect
      first, but the summary effect's first run reads the first render's
      empty lists and leaves the summary unset; the model renders that run
      as a `DeriveSummary` before `Generate`. The lists set by the mount
      effect cause a second render, whose summary effect sets the summary. */
  method Mount(dates: seq<string>, draws: seq<ActivityDraws>, waterDraws: seq<real>) returns (p: HealthProvider)
    requires |dates| > 0 && DrawsFor(dates, draws, waterDraws)
    ensures fresh(p)
    ensures |p.activities| == |dates| && p.currentDate == dates[0]
    ensures p.dailySummary.Some? && p.dailySummary.value.date == p.currentDate
    ensures FindDate(p.activities, ActivityDate, p.currentDate) == Some(p.activities[0])
    ensures p.workouts == [] && p.user == MockUser()
  {
    MountedSummaryMatchesLookups(dates, draws, waterDraws);
    p := new HealthProvider();
    p.DeriveSummary();
    p.Generate(dates, draws, waterDraws);
    p.DeriveSummary();
  }
}
