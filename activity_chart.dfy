/** The data behind the activity bar chart (src/components/charts/ActivityChart.tsx):
    a copy of the activities sorted oldest first by the time value of their
    date, one point per activity carrying the chosen metric, and the axis
    label and bar colour chosen by `dataType`. */
module ActivityChart {
  import opened Types
  import opened Calendar
  import opened Sorting

  datatype ChartPoint = ChartPoint(date: string, value: real)

  predicate DatesParse(acts: seq<Activity>) {
    forall i :: 0 <= i < |acts| ==> ParseDate(acts[i].date).Some?
  }

  function OldestKey(a: Activity): int { TimeOf(a.date) }

  /** The metric `dataType` selects; an unknown name falls back to steps. */
  function Metric(a: Activity, dataType: string): (v: real)
    ensures dataType == "steps" ==> v == a.steps as real
    ensures dataType == "calories" ==> v == a.caloriesBurned as real
    ensures dataType == "activeMinutes" ==> v == a.activeMinutes as real
    ensures dataType == "distance" ==> v == a.distance
    ensures dataType !in {"calories", "activeMinutes", "distance"} ==> v == a.steps as real
  {
    if dataType == "steps" then a.steps as real
    else if dataType == "calories" then a.caloriesBurned as real
    else if dataType == "activeMinutes" then a.activeMinutes as real
    else if dataType == "distance" then a.distance
    else a.steps as real
  }

  function PointOf(dataType: string): Activity -> ChartPoint {
    (a: Activity) => ChartPoint(a.date, Metric(a, dataType))
  }

  /** `chartData`: exactly one point per activity (the same multiset of
      points as projecting the input), ordered oldest to newest. */
  function ChartData(acts: seq<Activity>, dataType: string): (r: seq<ChartPoint>)
    requires DatesParse(acts)
    ensures |r| == |acts|
    ensures forall i, j :: 0 <= i < j < |r| ==> TimeOf(r[i].date) <= TimeOf(r[j].date)
    ensures multiset(r) == multiset(MapSeq(acts, PointOf(dataType)))
  {
    var sorted := SortBy(acts, OldestKey);
    MapSortBy(acts, OldestKey, PointOf(dataType));
    MapSeq(sorted, PointOf(dataType))
  }

  /** Each point keeps its activity's date and carries its metric: point i
      is built from the i-th activity of the stable oldest-first order. */
  lemma ChartPointsFromActivities(acts: seq<Activity>, dataType: string, i: int)
    requires DatesParse(acts) && 0 <= i < |acts|
    ensures var a := SortBy(acts, OldestKey)[i];
      a in acts && ChartData(acts, dataType)[i] == ChartPoint(a.date, Metric(a, dataType))
  {
    var sorted := SortBy(acts, OldestKey);
    assert sorted[i] in multiset(sorted);
  }

  /** `getYAxisLabel()`: empty for an unknown `dataType`. */
  function YAxisLabel(dataType: string): (axisLabel: string)
    ensures axisLabel == "" <==> dataType !in {"steps", "calories", "activeMinutes", "distance"}
  {
    if dataType == "steps" then "Steps"
    else if dataType == "calories" then "Calories"
    else if dataType == "activeMinutes" then "Minutes"
    else if dataType == "distance" then "Distance (km)"
    else ""
  }

  /** `getBarColor()`: green for steps and for an unknown `dataType`. */
  function BarColor(dataType: string): (color: string)
    ensures color == "#10b981" <==> dataType !in {"calories", "activeMinutes", "distance"}
  {
    if dataType == "steps" then "#10b981"
    else if dataType == "calories" then "#ef4444"
    else if dataType == "activeMinutes" then "#f97316"
    else if dataType == "distance" then "#3b82f6"
    else "#10b981"
  }
}
