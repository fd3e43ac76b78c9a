/** The home page (src/app/page.tsx): its own copy of the dashboard state
    with the mount and summary effects, the current-date lookups, the
    activity card's progress input, and the calendar section with its two
    cursors, its month grid and its per-day lookups. */
module Page {
  import opened Types
  import opened Calendar
  import opened Lookup
  import opened MockData
  import opened Summary
  import opened HealthContext

  class HomePage {
    var activities: seq<Activity>
    var workouts: seq<Workout>
    var nutrition: seq<Nutrition>
    var waterIntake: seq<WaterIntake>
    var currentDate: string
    var dailySummary: Option<DailySummary>

    /** The first render: empty lists, no current date and no summary. */
    constructor ()
      ensures activities == [] && workouts == [] && nutrition == [] && waterIntake == []
      ensures currentDate == "" && dailySummary == None
    {
      activities, workouts, nutrition, waterIntake := [], [], [], [];
      currentDate := "";
      dailySummary := None;
    }

    /** The mount effect: the week's dates feed the three generators, the
        fixed workouts of the month of `today` are installed, and the
        current date becomes the first date. */
    method Generate(dates: seq<string>, today: Date, draws: seq<ActivityDraws>, waterDraws: seq<real>)
      requires |dates| > 0 && DrawsFor(dates, draws, waterDraws)
      requires ValidDate(today) && today.year >= 0
      modifies this
      ensures var w := GenerateWeek(dates, draws, waterDraws);
        && activities == w.activities && nutrition == w.nutrition
        && waterIntake == w.waterIntake && currentDate == dates[0]
      ensures workouts == MockWorkouts(today)
      ensures dailySummary == old(dailySummary)
    {
      var w := GenerateWeek(dates, draws, waterDraws);
      activities, nutrition, waterIntake := w.activities, w.nutrition, w.waterIntake;
      workouts := MockWorkouts(today);
      currentDate := dates[0];
    }

    /** The summary effect: sets the summary when both lists are non-empty
        and otherwise leaves the previous value in place. */
    method DeriveSummary()
      modifies this`dailySummary
      ensures |activities| > 0 && |waterIntake| > 0 ==>
        dailySummary == Summarize(activities, waterIntake, currentDate)
      ensures !(|activities| > 0 && |waterIntake| > 0) ==> dailySummary == old(dailySummary)
    {
      var s := Summarize(activities, waterIntake, currentDate);
      if s.Some? {
        dailySummary := s;
      }
    }

    /** `activities.find(a => a.date === currentDate)`. */
    function CurrentActivity(): (r: Option<Activity>)
      reads this
      ensures r.None? <==> forall i :: 0 <= i < |activities| ==> activities[i].date != currentDate
      ensures r.Some? ==> r.value in activities && r.value.date == currentDate
      ensures r.Some? ==> exists i :: FirstMatch(activities, ActivityDate, currentDate, i) && activities[i] == r.value
    {
      FindDate(activities, ActivityDate, currentDate)
    }

    /** `nutrition.find(n => n.date === currentDate)`. */
    function CurrentNutrition(): (r: Option<Nutrition>)
      reads this
      ensures r.None? <==> forall i :: 0 <= i < |nutrition| ==> nutrition[i].date != currentDate
      ensures r.Some? ==> r.value in nutrition && r.value.date == currentDate
      ensures r.Some? ==> exists i :: FirstMatch(nutrition, NutritionDate, currentDate, i) && nutrition[i] == r.value
    {
      FindDate(nutrition, NutritionDate, currentDate)
    }

    /** `waterIntake.find(w => w.date === currentDate)`. */
    function CurrentWater(): (r: Option<WaterIntake>)
      reads this
      ensures r.None? <==> forall i :: 0 <= i < |waterIntake| ==> waterIntake[i].date != currentDate
      ensures r.Some? ==> r.value in waterIntake && r.value.date == currentDate
      ensures r.Some? ==> exists i :: FirstMatch(waterIntake, WaterDate, currentDate, i) && waterIntake[i] == r.value
    {
      FindDate(waterIntake, WaterDate, currentDate)
    }
  }

  /** The page after its first commit: the lookups for the current date find
      the first records, which are the ones summarised. As in the provider,
      the summary effect's first run reads the first render's empty lists,
      which the model renders as a `DeriveSummary` before `Generate`. */
  method MountPage(dates: seq<string>, today: Date, draws: seq<ActivityDraws>, waterDraws: seq<real>)
    returns (p: HomePage)
    requires |dates| > 0 && DrawsFor(dates, draws, waterDraws)
    requires ValidDate(today) && today.year >= 0
    ensures fresh(p)
    ensures p.currentDate == dates[0] && p.workouts == MockWorkouts(today)
    ensures |p.activities| == |p.nutrition| == |p.waterIntake| == |dates|
    ensures p.dailySummary.Some? && p.dailySummary.value.date == p.currentDate
    ensures p.CurrentActivity() == Some(p.activities[0])
    ensures p.CurrentWater() == Some(p.waterIntake[0])
    ensures p.CurrentNutrition() == Some(p.nutrition[0])
  {
    p := new HomePage();
    p.DeriveSummary();
    p.Generate(dates, today, draws, waterDraws);
    p.DeriveSummary();
    MountedSummaryMatchesLookups(dates, draws, waterDraws);
  }

  /** The activity card's progress: `activeMinutes / 60` when the summary
      exists and its minutes are non-zero, and 0 otherwise. */
  function ActivityProgress(s: Option<DailySummary>): (r: real)
    ensures r == 0.0 <==> s.None? || s.value.activeMinutes == 0
    ensures s.Some? ==> r * 60.0 == s.value.activeMinutes as real
  {
    if s.Some? && s.value.activeMinutes != 0 then s.value.activeMinutes as real / 60.0 else 0.0
  }

  /** A generated week's first day has 30 to 89 active minutes, so the
      activity card shows between half and just under one and a half hours. */
  lemma MountedActivityProgress(dates: seq<string>, draws: seq<ActivityDraws>, waterDraws: seq<real>)
    requires |dates| > 0 && DrawsFor(dates, draws, waterDraws)
    ensures var w := GenerateWeek(dates, draws, waterDraws);
      var p := ActivityProgress(Summarize(w.activities, w.waterIntake, dates[0]));
      0.5 <= p < 1.5
  {
    var w := GenerateWeek(dates, draws, waterDraws);
    var m := w.activities[0].activeMinutes;
    assert 30 <= m <= 89 by {
      assert w.activities == GenerateActivities(dates, MockUser(), draws);
    }
  }

  /** `getEventsForDate(date)`: the workouts dated on the cell's day, in
      list order; a placeholder cell has none. */
  function GetEventsForDate(workouts: seq<Workout>, cell: Option<Date>): (r: seq<Workout>)
    requires cell.Some? ==> InFormatRange(cell.value)
    ensures cell.None? ==> r == []
    ensures cell.Some? ==> forall i :: 0 <= i < |r| ==> r[i].date == FormatDate(cell.value)
    ensures cell.Some? ==>
      forall x :: multiset(r)[x] == (if x.date == FormatDate(cell.value) then multiset(workouts)[x] else 0)
  {
    match cell
    case None => []
    case Some(d) => FilterDate(workouts, WorkoutDate, FormatDate(d))
  }

  /** `hasActivityOnDate(date)`: some activity is dated on the cell's day. */
  function HasActivityOnDate(activities: seq<Activity>, cell: Option<Date>): (b: bool)
    requires cell.Some? ==> InFormatRange(cell.value)
    ensures b <==> cell.Some? && exists i :: 0 <= i < |activities| && activities[i].date == FormatDate(cell.value)
  {
    match cell
    case None => false
    case Some(d) => SomeDate(activities, ActivityDate, FormatDate(d))
  }

  /** `selectedActivity`: the first activity dated on the selected day. */
  function SelectedActivity(activities: seq<Activity>, selected: Date): (r: Option<Activity>)
    requires InFormatRange(selected)
    ensures r.None? <==> !HasActivityOnDate(activities, Some(selected))
    ensures r.Some? ==> exists i :: FirstMatch(activities, ActivityDate, FormatDate(selected), i)
                                    && activities[i] == r.value
  {
    FindDate(activities, ActivityDate, FormatDate(selected))
  }

  /** The calendar section: the selected day and the displayed month. */
  class CalendarSection {
    var selectedDate: Date
    var selectedMonth: MonthCursor

    ghost predicate Valid()
      reads this
    {
      ValidDate(selectedDate) && ValidMonth(selectedMonth)
    }

    /** Both cursors start at today. */
    constructor (today: Date)
      requires ValidDate(today)
      ensures Valid()
      ensures selectedDate == today && selectedMonth == MonthOf(today)
    {
      selectedDate := today;
      selectedMonth := MonthOf(today);
    }

    /** ← Prev: one month back, December of the previous year after January. */
    method Prev()
      requires Valid()
      modifies this`selectedMonth
      ensures Valid()
      ensures selectedMonth == ShiftMonth(old(selectedMonth), -1)
      ensures MonthIndex(selectedMonth) == MonthIndex(old(selectedMonth)) - 1
      ensures selectedDate == old(selectedDate)
    {
      selectedMonth := ShiftMonth(selectedMonth, -1);
    }

    /** Today: back to the month of the current day. */
    method GoToday(today: Date)
      requires Valid() && ValidDate(today)
      modifies this`selectedMonth
      ensures Valid()
      ensures selectedMonth == MonthOf(today)
      ensures selectedDate == old(selectedDate)
    {
      selectedMonth := MonthOf(today);
    }

    /** Next →: one month on, January of the next year after December. */
    method Next()
      requires Valid()
      modifies this`selectedMonth
      ensures Valid()
      ensures selectedMonth == ShiftMonth(old(selectedMonth), 1)
      ensures MonthIndex(selectedMonth) == MonthIndex(old(selectedMonth)) + 1
      ensures selectedDate == old(selectedDate)
    {
      selectedMonth := ShiftMonth(selectedMonth, 1);
    }

    /** A click on a grid cell: a day selects it, a placeholder does nothing;
        the displayed month never moves. */
    method ClickCell(cell: Option<Date>)
      requires Valid() && (cell.Some? ==> ValidDate(cell.value))
      modifies this`selectedDate
      ensures Valid()
      ensures selectedDate == if cell.Some? then cell.value else old(selectedDate)
      ensures selectedMonth == old(selectedMonth)
    {
      if cell.Some? {
        selectedDate := cell.value;
      }
    }

    /** `generateDays()`: one placeholder per weekday before the 1st of the
        displayed month, then every day of the month in order, so that each
        day sits in the column of its weekday. */
    method GenerateDays() returns (cells: seq<Option<Date>>)
      requires Valid()
      ensures var y, m := selectedMonth.year, selectedMonth.month;
        var w, n := WeekDay(Date(y, m, 1)), DaysInMonth(y, m);
        && |cells| == w + n
        && (forall i :: 0 <= i < w ==> cells[i].None?)
        && (forall d :: 1 <= d <= n ==> cells[w + d - 1] == Some(Date(y, m, d)))
      ensures forall i :: 0 <= i < |cells| && cells[i].Some? ==>
        && ValidDate(cells[i].value) && MonthOf(cells[i].value) == selectedMonth
        && WeekDay(cells[i].value) == i % 7
    {
      var y, m := selectedMonth.year, selectedMonth.month;
      var startDay := WeekDay(Date(y, m, 1));
      var end := DaysInMonth(y, m);
      cells := [];
      var i := 0;
      while i < startDay
        invariant 0 <= i <= startDay && |cells| == i
        invariant forall j :: 0 <= j < i ==> cells[j].None?
      {
        cells := cells + [None];
        i := i + 1;
      }
      var day := 1;
      while day <= end
        invariant 1 <= day <= end + 1 && |cells| == startDay + day - 1
        invariant forall j :: 0 <= j < startDay ==> cells[j].None?
        invariant forall d :: 1 <= d < day ==> cells[startDay + d - 1] == Some(Date(y, m, d))
      {
        cells := cells + [Some(Date(y, m, day))];
        day := day + 1;
      }
      forall i | 0 <= i < |cells| && cells[i].Some?
        ensures ValidDate(cells[i].value) && MonthOf(cells[i].value) == selectedMonth
        ensures WeekDay(cells[i].value) == i % 7
      {
        var d := i - startDay + 1;
        assert cells[startDay + d - 1] == Some(Date(y, m, d));
        WeekDayOfDay(y, m, d);
      }
    }
  }

  /** Each fixed workout shows up among the events of its day's cell when
      the calendar displays the current month of a four-digit year. */
  lemma CalendarShowsMockWorkouts(today: Date, k: int)
    requires ValidDate(today) && 1000 <= today.year <= 9999 && 0 <= k < 7
    ensures var cell := Date(today.year, today.month, WorkoutDays()[k]);
      && InFormatRange(cell)
      && MockWorkouts(today)[k] in GetEventsForDate(MockWorkouts(today), Some(cell))
  {
    var ws := MockWorkouts(today);
    var cell := Date(today.year, today.month, WorkoutDays()[k]);
    MockWorkoutDates(today, k);
    assert ParseDate(ws[k].date) == Some(cell);
    var r := GetEventsForDate(ws, Some(cell));
    assert ws[k] in multiset(ws);
    assert multiset(r)[ws[k]] == multiset(ws)[ws[k]];
  }

  /** Every day of the generated week carries its activity mark in the grid. */
  lemma CalendarMarksWeek(today: Date, draws: seq<ActivityDraws>, waterDraws: seq<real>, i: int)
    requires WeekInRange(today) && 0 <= i < 7
    requires DrawsFor(PastWeekDates(today), draws, waterDraws)
    ensures InFormatRange(SubDays(today, i))
    ensures HasActivityOnDate(GenerateWeek(PastWeekDates(today), draws, waterDraws).activities,
                              Some(SubDays(today, i)))
  {
    var dates := PastWeekDates(today);
    var acts := GenerateWeek(dates, draws, waterDraws).activities;
    WindowInRange(today, i);
    FormatParse(dates[i]);
    assert acts[i].date == FormatDate(SubDays(today, i));
  }
}
