/** The data shaping of the workout list (src/components/dashboard/WorkoutList.tsx):
    a copy of the workouts sorted newest first by the time value of their
    date, cut to `limit` rows (default 4), and the icon for each workout type. */
module WorkoutList {
  import opened Types
  import opened Calendar
  import opened Sorting

  predicate DatesParse(ws: seq<Workout>) {
    forall i :: 0 <= i < |ws| ==> ParseDate(ws[i].date).Some?
  }

  /** The comparator `b - a` on time values is ascending order on the negated time. */
  function NewestKey(w: Workout): int { -TimeOf(w.date) }

  /** Where `slice(0, end)` stops on a list of length `len` (a negative end
      counts back from the length). */
  function SliceEnd(len: nat, end: int): (n: nat)
    ensures n <= len
    ensures end >= 0 ==> n == if end < len then end else len
    ensures end < 0 ==> n == if len + end > 0 then len + end else 0
  {
    if end < 0 then (if len + end > 0 then len + end else 0)
    else if end < len then end else len
  }

  /** The `limit` prop with its default. */
  function LimitOf(limit: Option<int>): int {
    match limit
    case Some(n) => n
    case None => 4
  }

  /** `[...workouts].sort(newest first).slice(0, limit)`. */
  function NewestFirst(ws: seq<Workout>, limit: Option<int>): (r: seq<Workout>)
    requires DatesParse(ws)
    ensures |r| == SliceEnd(|ws|, LimitOf(limit))
    ensures forall i, j :: 0 <= i < j < |r| ==> TimeOf(r[i].date) >= TimeOf(r[j].date)
    ensures multiset(r) <= multiset(ws)
    ensures forall w, k :: w in multiset(ws) - multiset(r) && k in r ==> TimeOf(w.date) <= TimeOf(k.date)
  {
    var sorted := SortBy(ws, NewestKey);
    var n := SliceEnd(|ws|, LimitOf(limit));
    SortedPrefix(sorted, NewestKey, n);
    sorted[..n]
  }

  /** The kept rows are the first rows of the stable newest-first order:
      equally dated workouts keep their input order. */
  lemma NewestFirstStable(ws: seq<Workout>, limit: Option<int>, t: int)
    requires DatesParse(ws) && LimitOf(limit) >= |ws|
    ensures WithKey(NewestFirst(ws, limit), NewestKey, t) == WithKey(ws, NewestKey, t)
  {
    var sorted := SortBy(ws, NewestKey);
    assert SliceEnd(|ws|, LimitOf(limit)) == |sorted|;
    assert sorted[..|sorted|] == sorted;
    SortStable(ws, NewestKey, t);
  }

  /** For any cut, the kept workouts of one date are the first workouts of
      that date in input order: the stable sort never lets a later one of
      the same date displace an earlier one. */
  lemma NewestFirstStablePrefix(ws: seq<Workout>, limit: Option<int>, t: int)
    requires DatesParse(ws)
    ensures WithKey(NewestFirst(ws, limit), NewestKey, t) <= WithKey(ws, NewestKey, t)
  {
    var sorted := SortBy(ws, NewestKey);
    var n := SliceEnd(|ws|, LimitOf(limit));
    assert sorted == sorted[..n] + sorted[n..];
    WithKeyConcat(sorted[..n], sorted[n..], NewestKey, t);
    SortStable(ws, NewestKey, t);
  }

  /** The list shows "No workouts found" exactly when no row survives the
      cut; an empty input always does. */
  function ShowsEmptyMessage(ws: seq<Workout>, limit: Option<int>): (b: bool)
    requires DatesParse(ws)
    ensures b <==> |ws| == 0 || SliceEnd(|ws|, LimitOf(limit)) == 0
  {
    |NewestFirst(ws, limit)| == 0
  }

  datatype Glyph = ActivityGlyph | CircleUser | Bike | Dumbbell | Zap | Flame

  datatype Icon = Icon(glyph: Glyph, tint: string)

  function DefaultIcon(): Icon { Icon(Flame, "text-gray-500") }

  /** `getWorkoutIcon(type)`: seven named types get their own icon; anything
      else falls back to the grey flame. */
  function WorkoutIcon(t: WorkoutType): (icon: Icon)
    ensures icon == DefaultIcon() <==> t == Other
  {
    match t
    case Running => Icon(ActivityGlyph, "text-red-500")
    case Walking => Icon(CircleUser, "text-green-500")
    case Cycling => Icon(Bike, "text-blue-500")
    case Swimming => Icon(ActivityGlyph, "text-cyan-500")
    case Strength => Icon(Dumbbell, "text-amber-500")
    case Yoga => Icon(ActivityGlyph, "text-purple-500")
    case Hiit => Icon(Zap, "text-orange-500")
    case Other => DefaultIcon()
  }

  /** No two workout types share an icon. */
  lemma WorkoutIconInjective(a: WorkoutType, b: WorkoutType)
    requires WorkoutIcon(a) == WorkoutIcon(b)
    ensures a == b
  {
    assert WorkoutIcon(a).tint[5..] == WorkoutIcon(b).tint[5..];
  }
}
